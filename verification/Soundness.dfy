/** The invariant of every history. A run that starts afresh does not know of the skips operators made
    before; it takes the steps it would take if those nodes were still waiting. */
module Soundness {
  import opened Graphs
  import opened Plans
  import opened Protocol
  import opened Invariants
  import opened Histories

  // ---- skips a run does not know of ----------------------------------------------------------

  predicate Ignored(run: Run, rows: Rows, key: Key) {
    key in rows && rows[key].status == Skipped && key !in run.skipped
  }

  /** The rows as they would be had the ignored skips not been made. */
  function ClearedRows(run: Run, rows: Rows): Rows {
    map k | k in rows :: if Ignored(run, rows, k) then rows[k].(status := Waiting) else rows[k]
  }

  function ClearedStore(run: Run, store: Store): Store {
    store.(rows := ClearedRows(run, store.rows))
  }

  function Cleared(s: Sys): Sys {
    match s.mode
    case Idle => s
    case Active(run, _, _) => s.(store := ClearedStore(run, s.store), durable := ClearedStore(run, s.durable))
  }

  ghost predicate IgnoredByHuman(run: Run, rows: Rows) {
    forall k :: Ignored(run, rows, k) ==> rows[k].byHuman
  }

  /** Whatever is settled is settled the same way in the session and in the last commit. */
  ghost predicate SameOutcomes(rows: Rows, rows': Rows) {
    forall k :: k in rows && k in rows' && (Settled(rows[k].status) || Settled(rows'[k].status)) ==> rows[k] == rows'[k]
  }

  /** Once the ignored skips, all of them made by people, are set aside, memory, session and last commit
      say the same. */
  ghost predicate Sound(plan: Plan, cfg: Config, s: Sys) {
    && InAgreement(plan, cfg, Cleared(s)) && SameOutcomes(s.store.rows, s.durable.rows)
    && (s.mode.Active? ==>
          IgnoredByHuman(s.mode.run, s.store.rows) && IgnoredByHuman(s.mode.run, s.durable.rows))
  }

  /** No run has touched the row. */
  predicate Untouched(row: Row) {
    row.attempts == 0 && row.status != Completed && (row.status == Skipped ==> row.byHuman)
  }

  ghost predicate Unstarted(store: Store) {
    store.status == Pending ==> forall k :: k in store.rows ==> Untouched(store.rows[k])
  }

  ghost predicate Invariant(plan: Plan, cfg: Config, s: Sys) {
    && Sound(plan, cfg, s) && Unstarted(s.store) && Unstarted(s.durable)
    && (s.mode.Active? ==> s.store.status == InProgress)
  }

  // ---- what the cleared rows say about the rows ------------------------------------------------

  lemma ClearedRecord(run: Run, rows: Rows)
    ensures SameRecord(rows, ClearedRows(run, rows))
    ensures forall k :: k in rows ==> ClearedRows(run, rows)[k].attempts == rows[k].attempts
  {
  }

  /** An ignored skip only adds to what the rows have settled. */
  lemma ClearedView(run: Run, rows: Rows)
    ensures var v, w := StoredView(ClearedRows(run, rows)), StoredView(rows);
      && v.results == w.results
      && (forall k :: Resolved(v, k) ==> SameAt(v, w, k))
      && (forall k :: k in w.skips && k !in v.skips ==> Ignored(run, rows, k))
  {
    hide ReasonOf;
    assert StoredView(ClearedRows(run, rows)).results == StoredView(rows).results;
  }

  lemma UnclearedFresh(plan: Plan, run: Run, rows: Rows)
    requires Fresh(plan, ClearedRows(run, rows)) && IgnoredByHuman(run, rows)
    ensures Fresh(plan, rows)
  {
    hide NodeKeys, NodeOf;
    var cleared := ClearedRows(run, rows);
    var v, w := StoredView(cleared), StoredView(rows);
    ClearedView(run, rows);
    forall k | k in rows && k in NodeKeys(plan)
      ensures FreshAt(plan, w, rows[k], k)
    {
      if !Ignored(run, rows, k) {
        assert cleared[k] == rows[k] && FreshAt(plan, v, cleared[k], k);
        if DependenciesResolved(plan, v, k) {
          SettlingKeepsSources(plan, v, w, k);
        }
        StaysFresh(plan, v, w, rows[k], rows[k], k);
      }
    }
  }

  lemma UnclearedRowsKept(plan: Plan, run: Run, rows: Rows)
    requires Kept(plan, ClearedRows(run, rows))
    ensures Kept(plan, rows)
  {
    hide NodeKeys, NodeOf;
    forall k | k in rows && k in NodeKeys(plan)
      ensures RowKept(NodeOf(plan, k), rows[k])
    {
      assert RowKept(NodeOf(plan, k), ClearedRows(run, rows)[k]);
    }
  }

  lemma UnclearedKept(plan: Plan, run: Run, rows: Rows)
    requires StoreKept(plan, ClearedRows(run, rows)) && IgnoredByHuman(run, rows)
    ensures StoreKept(plan, rows)
  {
    hide Fresh, Kept, NodeKeys;
    UnclearedFresh(plan, run, rows);
    UnclearedRowsKept(plan, run, rows);
  }

  lemma UnclearedDispatched(plan: Plan, run: Run, rows: Rows, inputs: map<Key, AgentInput>)
    requires DispatchedWell(plan, ClearedRows(run, rows), inputs)
    ensures DispatchedWell(plan, rows, inputs)
    ensures forall k :: k in inputs ==> !Ignored(run, rows, k)
  {
    hide NodeKeys, NodeOf, UpstreamFor, SkipReason;
    var cleared := ClearedRows(run, rows);
    var v, w := StoredView(cleared), StoredView(rows);
    ClearedView(run, rows);
    forall k | k in inputs
      ensures DispatchedAt(plan, rows, k, inputs[k]) && !Ignored(run, rows, k)
    {
      assert DispatchedAt(plan, cleared, k, inputs[k]);
      SettlingKeepsSources(plan, v, w, k);
      VerdictsAreLocal(plan, v, w, NodeOf(plan, k));
    }
  }

  // ---- the facts of a sound state ---------------------------------------------------------------

  /** What holds of the rows themselves, ignored skips included. */
  lemma SoundFacts(plan: Plan, cfg: Config, s: Sys)
    requires Sound(plan, cfg, s)
    ensures StoreKept(plan, s.store.rows) && StoreKept(plan, s.durable.rows)
    ensures SameRecord(s.store.rows, s.durable.rows) && s.store.cost == s.durable.cost
    ensures s.mode.Idle? ==> s.store == s.durable
    ensures s.mode.Active? ==>
      && s.mode.remaining == Remaining(cfg.budget, s.store.cost)
      && (forall k :: k in s.store.rows ==> UsedAttempts(s.mode.run, k) == s.store.rows[k].attempts)
  {
    if s.mode.Active? {
      hide StoreKept, PhaseKept;
      UnclearedKept(plan, s.mode.run, s.store.rows);
      UnclearedKept(plan, s.mode.run, s.durable.rows);
      ClearedRecord(s.mode.run, s.store.rows);
      ClearedRecord(s.mode.run, s.durable.rows);
    }
  }

  /** What holds of a dispatched batch. */
  lemma DispatchFacts(plan: Plan, cfg: Config, s: Sys)
    requires Sound(plan, cfg, s) && s.mode.Active? && s.mode.phase.Dispatched?
    ensures AllSucceeded(s.mode.run) && s.mode.phase.inputs.Keys == KeySet(s.mode.phase.batch)
    ensures DispatchedWell(plan, s.store.rows, s.mode.phase.inputs)
    ensures forall k :: k in s.mode.phase.inputs ==> !Ignored(s.mode.run, s.store.rows, k)
  {
    hide StoreKept, Agree, SameRecord, DispatchedWell;
    UnclearedDispatched(plan, s.mode.run, s.store.rows, s.mode.phase.inputs);
  }

  lemma RecordingFacts(plan: Plan, cfg: Config, s: Sys, results: Results)
    requires Sound(plan, cfg, s) && Enabled(plan, cfg, s, Record(results))
    ensures RecordingFits(plan, s.store.rows, s.mode.phase.inputs, results)
    ensures AllSucceeded(s.mode.run) && results.Keys == KeySet(s.mode.phase.batch)
  {
    hide Fresh, SameRecord, AllSucceeded, StoredView, Sound, RecordingFits;
    SoundFacts(plan, cfg, s);
    DispatchFacts(plan, cfg, s);
    NumberedFits(plan, cfg, s.store.rows, s.mode.run, s.mode.phase.inputs, results);
    assert RecordingFits(plan, s.store.rows, s.mode.phase.inputs, results);
  }

  lemma NumberedFits(
    plan: Plan, cfg: Config, rows: Rows, run: Run, inputs: map<Key, AgentInput>, results: Results)
    requires Keyed(plan, rows) && Kept(plan, rows) && DispatchedWell(plan, rows, inputs)
    requires ResultsAllowed(plan, cfg, run, inputs, results)
    requires forall k :: k in rows ==> UsedAttempts(run, k) == rows[k].attempts
    ensures RecordingFits(plan, rows, inputs, results)
  {
    hide Kept, NodeOf, UsedAttempts;
    forall k | k in results
      ensures k in NodeKeys(plan) && k in rows
    {
      assert DispatchedAt(plan, rows, k, inputs[k]);
    }
  }

  // ---- steps over ignored skips ---------------------------------------------------------------------

  lemma {:induction false} BatchReadsRules(plan: Plan, v: View, rows: Rows, rows': Rows, nodes: seq<Node>)
    requires forall k :: RuleFor(plan, v, rows, k) == RuleFor(plan, v, rows', k)
    ensures BatchOf(plan, v, rows, nodes) == BatchOf(plan, v, rows', nodes)
  {
    hide RuleFor;
    if nodes != [] {
      BatchReadsRules(plan, v, rows, rows', nodes[1..]);
    }
  }

  lemma RuleReadsDecision(plan: Plan, v: View, run: Run, rows: Rows, key: Key)
    ensures RuleFor(plan, v, rows, key) == RuleFor(plan, v, ClearedRows(run, rows), key)
  {
    hide NodeKeys, SkipReason, DependenciesResolved, Resolved;
  }

  /** A ruling reads a row's decision and nothing else of it. */
  lemma RulesReadDecisions(plan: Plan, v: View, run: Run, rows: Rows)
    ensures var cleared := ClearedRows(run, rows);
      && (forall k :: RuleFor(plan, v, rows, k) == RuleFor(plan, v, cleared, k))
      && BatchOf(plan, v, rows, plan.nodes) == BatchOf(plan, v, cleared, plan.nodes)
      && NewSkips(plan, v, rows) == NewSkips(plan, v, cleared)
      && (AnyReady(plan, v, rows) <==> AnyReady(plan, v, cleared))
      && (AnyGate(plan, v, rows) <==> AnyGate(plan, v, cleared))
  {
    hide RuleFor, NodeKeys;
    var cleared := ClearedRows(run, rows);
    forall k
      ensures RuleFor(plan, v, rows, k) == RuleFor(plan, v, cleared, k)
    {
      RuleReadsDecision(plan, v, run, rows, k);
    }
    BatchReadsRules(plan, v, rows, cleared, plan.nodes);
  }

  lemma ClearedRulingAt(plan: Plan, run: Run, run': Run, rows: Rows, key: Key)
    requires run'.skipped == run.skipped + NewSkips(plan, RunView(run), rows) && key in rows
    ensures var v := RunView(run);
      var rule, row, cleared := RuleFor(plan, v, rows, key), rows[key], ClearedRows(run, rows)[key];
      var ruled := RuledRow(rule, row);
      && (if ruled.status == Skipped && key !in run'.skipped then ruled.(status := Waiting) else ruled)
         == RuledRow(rule, cleared)
      && (ruled.status == Skipped && key !in run'.skipped ==> Ignored(run, rows, key) && ruled == row)
  {
    hide NodeKeys, SkipReason, DependenciesResolved;
  }

  /** Ruling and setting ignored skips aside can be done in either order. */
  lemma ClearedRulings(plan: Plan, run: Run, run': Run, rows: Rows)
    requires run'.skipped == run.skipped + NewSkips(plan, RunView(run), rows)
    ensures var v := RunView(run); var ruled := RuledRows(plan, v, rows);
      && ClearedRows(run', ruled) == RuledRows(plan, v, ClearedRows(run, rows))
      && (forall k :: Ignored(run', ruled, k) ==> Ignored(run, rows, k) && ruled[k] == rows[k])
  {
    hide RuleFor, RuledRow, NewSkips, RunView;
    var v := RunView(run);
    var ruled, cleared := RuledRows(plan, v, rows), ClearedRows(run, rows);
    forall k | k in rows
      ensures ClearedRows(run', ruled)[k] == RuledRows(plan, v, cleared)[k]
      ensures Ignored(run', ruled, k) ==> Ignored(run, rows, k) && ruled[k] == rows[k]
    {
      RuleReadsDecision(plan, v, run, rows, k);
      ClearedRulingAt(plan, run, run', rows, k);
    }
  }

  lemma ClearedOnce(run: Run, run': Run, store: Store)
    requires run'.skipped == run.skipped
    ensures ClearedStore(run', store) == ClearedStore(run, store)
    ensures IgnoredByHuman(run, store.rows) == IgnoredByHuman(run', store.rows)
  {
  }

  /** What a decision that goes on commits. */
  lemma DecideGoing(plan: Plan, s: Sys)
    requires s.mode.Active? && DecideStep(plan, s).mode.Active?
    ensures var v := RunView(s.mode.run); var s' := DecideStep(plan, s);
      && s'.store == s'.durable == s.store.(rows := RuledRows(plan, v, s.store.rows))
      && s'.mode.run.skipped == s.mode.run.skipped + NewSkips(plan, v, s.store.rows)
      && s'.mode.remaining == s.mode.remaining
  {
    hide RuledRows, NewSkips, BatchOf, AnyReady, AnyGate, RoundThrows, InputsFor, CancelledRows, RunView;
  }

  /** A decision that goes on is the one the run would make had the ignored skips not been made. */
  lemma DecideCommutes(plan: Plan, s: Sys)
    requires s.mode.Active? && DecideStep(plan, s).mode.Active?
    ensures Cleared(DecideStep(plan, s)) == DecideStep(plan, Cleared(s))
    ensures IgnoredByHuman(s.mode.run, s.store.rows) ==>
      IgnoredByHuman(DecideStep(plan, s).mode.run, DecideStep(plan, s).store.rows)
  {
    var run, rows := s.mode.run, s.store.rows;
    var v := RunView(run);
    var run' := run.(skipped := run.skipped + NewSkips(plan, v, rows));
    var s' := DecideStep(plan, s);
    hide RuledRows, NewSkips, BatchOf, AnyReady, AnyGate, RoundThrows, InputsFor, ClearedRows, CancelledRows, RunView;
    hide Ignored;
    RulesReadDecisions(plan, v, run, rows);
    ClearedRulings(plan, run, run', rows);
    DecideGoing(plan, s);
    ClearedOnce(run', s'.mode.run, s'.store);
    assert ClearedStore(s'.mode.run, s'.store) == DecideStep(plan, Cleared(s)).store;
    assert Cleared(s') == DecideStep(plan, Cleared(s));
  }

  lemma RecordedIsNotSkipped(row: Row, outs: seq<Output>, upstream: seq<Upstream>)
    requires outs != []
    ensures RecordedRow(row, outs, upstream).status != Skipped
  {
  }

  lemma ClearedRecording(run: Run, rows: Rows, inputs: map<Key, AgentInput>, results: Results)
    requires forall k :: k in inputs ==> !Ignored(run, rows, k)
    ensures var recorded := RecordedRows(rows, inputs, results);
      && ClearedRows(run, recorded) == RecordedRows(ClearedRows(run, rows), inputs, results)
      && (forall k :: Ignored(run, recorded, k) ==> Ignored(run, rows, k) && recorded[k] == rows[k])
  {
    hide RecordedRow;
    forall k | k in rows && k in inputs && k in results && results[k] != []
      ensures RecordedRow(rows[k], results[k], inputs[k].upstream).status != Skipped
    {
      RecordedIsNotSkipped(rows[k], results[k], inputs[k].upstream);
    }
  }

  lemma RecordCommutes(s: Sys, results: Results)
    requires s.mode.Active? && s.mode.phase.Dispatched?
    requires forall k :: k in s.mode.phase.inputs ==> !Ignored(s.mode.run, s.store.rows, k)
    ensures Cleared(RecordStep(s, results)) == RecordStep(Cleared(s), results)
    ensures IgnoredByHuman(s.mode.run, s.store.rows) ==>
      IgnoredByHuman(RecordStep(s, results).mode.run, RecordStep(s, results).store.rows)
  {
    hide BatchCost, RecordedRows, ClearedRows, AnyFailure, Ignored;
    ClearedRecording(s.mode.run, s.store.rows, s.mode.phase.inputs, results);
    ClearedOnce(s.mode.run, RecordStep(s, results).mode.run, RecordStep(s, results).store);
    assert Cleared(RecordStep(s, results)) == RecordStep(Cleared(s), results);
  }

  lemma ClearedReopening(run: Run, run': Run, rows: Rows, keys: set<Key>)
    requires run'.skipped == run.skipped - keys
    ensures var reopened := ReopenedRows(rows, keys);
      && ClearedRows(run', reopened) == ReopenedRows(ClearedRows(run, rows), keys)
      && (forall k :: Ignored(run', reopened, k) ==> Ignored(run, rows, k) && reopened[k] == rows[k])
  {
  }

  lemma RouteCommutes(plan: Plan, cfg: Config, s: Sys)
    requires s.mode.Active? && RouteStep(plan, cfg, s).mode.Active?
    ensures Cleared(RouteStep(plan, cfg, s)) == RouteStep(plan, cfg, Cleared(s))
    ensures IgnoredByHuman(s.mode.run, s.store.rows) ==>
      IgnoredByHuman(RouteStep(plan, cfg, s).mode.run, RouteStep(plan, cfg, s).store.rows)
  {
    var run, rows := s.mode.run, s.store.rows;
    var firing := FirstFiring(cfg, run, plan.nodes);
    hide FirstFiring, FeedbackText, ReopenedRows, Ignored, Affected, DetailOf, Repairs;
    if firing.Some? {
      var keys := Affected(plan, firing.value.feedback.value.target);
      ClearedReopening(run, RouteStep(plan, cfg, s).mode.run, rows, keys);
    }
    hide ClearedRows;
    assert Cleared(RouteStep(plan, cfg, s)) == RouteStep(plan, cfg, Cleared(s));
  }

  /** While a run lasts, each of its steps is the step it would take had the ignored skips not been made. */
  lemma StepsAsIfNotSkipped(plan: Plan, cfg: Config, s: Sys, e: Event)
    requires Sound(plan, cfg, s) && s.mode.Active? && Step(plan, cfg, s, e).mode.Active?
    ensures Cleared(Step(plan, cfg, s, e)) == Step(plan, cfg, Cleared(s), e)
    ensures var s' := Step(plan, cfg, s, e);
      IgnoredByHuman(s'.mode.run, s'.store.rows) && IgnoredByHuman(s'.mode.run, s'.durable.rows)
  {
    hide DecideStep, RecordStep, RouteStep, InAgreement, ClearedRows, IgnoredByHuman, ResultsAllowed;
    if Enabled(plan, cfg, s, e) {
      match e {
        case Decide =>
          DecideCommutes(plan, s);
          DecideGoing(plan, s);
        case Record(results) =>
          DispatchFacts(plan, cfg, s);
          RecordCommutes(s, results);
          RecordGoing(s, results);
        case Route =>
          RouteCommutes(plan, cfg, s);
          RouteGoing(plan, cfg, s);
        case _ =>
      }
    }
  }

  lemma RecordGoing(s: Sys, results: Results)
    requires s.mode.Active? && s.mode.phase.Dispatched?
    ensures RecordStep(s, results).durable == RecordStep(s, results).store && RecordStep(s, results).mode.Active?
  {
    hide RecordedRows, RecordedRun, BatchCost, AnyFailure;
  }

  lemma RouteGoing(plan: Plan, cfg: Config, s: Sys)
    requires s.mode.Active? && RouteStep(plan, cfg, s).mode.Active?
    ensures var s' := RouteStep(plan, cfg, s);
      s'.durable == s'.store || (s'.durable == s.durable && s'.store == s.store && s'.mode.run == s.mode.run)
  {
    hide FirstFiring, FeedbackText, ReopenedRows, ReopenedRun, Affected, RoutingThrows;
  }

  // ---- the invariant, step by step --------------------------------------------------------------------

  /** Where a run stops, the rows keep what they promise with the ignored skips on them. */
  lemma AtRestSound(plan: Plan, cfg: Config, store: Store)
    requires StoreKept(plan, store.rows)
    ensures Sound(plan, cfg, Committed(store, Idle))
  {
    hide StoreKept;
    SameRecordReflexive(store.rows);
  }

  lemma CrashSound(plan: Plan, cfg: Config, s: Sys)
    requires Sound(plan, cfg, s)
    ensures Sound(plan, cfg, CrashStep(s))
  {
    hide Sound;
    SoundFacts(plan, cfg, s);
    AtRestSound(plan, cfg, s.durable);
  }

  lemma PausedSound(plan: Plan, cfg: Config, s: Sys)
    requires Sound(plan, cfg, s) && s.mode.Active? && s.mode.phase.Head?
    ensures StoreKept(plan, RuledRows(plan, RunView(s.mode.run), s.store.rows))
  {
    hide StoreKept, RuledRows, NewSkips, ClearedRows, RunView, StoredView, SameRecord, Ignored, SameOutcomes;
    var run, rows := s.mode.run, s.store.rows;
    var v := RunView(run);
    var run' := run.(skipped := run.skipped + NewSkips(plan, v, rows));
    var cleared := ClearedRows(run, rows);
    AgreementOfViews(run, cleared);
    RulesReadDecisions(plan, v, run, rows);
    RulingsKept(plan, cleared, run, run');
    ClearedRulings(plan, run, run', rows);
    UnclearedKept(plan, run', RuledRows(plan, v, rows));
  }

  /** How a decision may end the run. */
  lemma DecideStopping(plan: Plan, s: Sys)
    requires s.mode.Active? && DecideStep(plan, s).mode.Idle?
    ensures var s' := DecideStep(plan, s);
      || s' == CrashStep(s)
      || (s' == Committed(s'.store, Idle)
          && s'.store.rows in {CancelledRows(s.store.rows), s.store.rows,
                               RuledRows(plan, RunView(s.mode.run), s.store.rows)})
  {
    hide RuledRows, NewSkips, BatchOf, AnyReady, AnyGate, RoundThrows, InputsFor, CancelledRows, RunView;
  }

  lemma DecideSound(plan: Plan, cfg: Config, s: Sys)
    requires Sound(plan, cfg, s) && s.mode.Active? && s.mode.phase.Head?
    ensures Sound(plan, cfg, DecideStep(plan, s))
  {
    hide DecideStep;
    var s' := DecideStep(plan, s);
    if s'.mode.Active? {
      hide InAgreement, IgnoredByHuman;
      DecideCommutes(plan, s);
      DecideGoing(plan, s);
      DecideKept(plan, cfg, Cleared(s));
    } else {
      hide Sound, StoreKept, CancelledRows, RuledRows;
      DecideStopping(plan, s);
      CrashSound(plan, cfg, s);
      SoundFacts(plan, cfg, s);
      PausedSound(plan, cfg, s);
      CancelledKept(plan, s.store.rows);
      if s' != CrashStep(s) {
        AtRestSound(plan, cfg, s'.store);
      }
    }
  }

  lemma RecordSound(plan: Plan, cfg: Config, s: Sys, results: Results)
    requires Sound(plan, cfg, s) && Enabled(plan, cfg, s, Record(results))
    ensures Sound(plan, cfg, RecordStep(s, results))
  {
    hide RecordStep, InAgreement, IgnoredByHuman, ResultsAllowed;
    DispatchFacts(plan, cfg, s);
    RecordCommutes(s, results);
    RecordGoing(s, results);
    RecordKept(plan, cfg, Cleared(s), results);
  }

  lemma RouteSound(plan: Plan, cfg: Config, s: Sys)
    requires Sound(plan, cfg, s) && s.mode.Active? && s.mode.phase == Recorded(false)
    ensures Sound(plan, cfg, RouteStep(plan, cfg, s))
  {
    if RouteStep(plan, cfg, s).mode.Active? {
      hide RouteStep, InAgreement, IgnoredByHuman, SameOutcomes;
      RouteCommutes(plan, cfg, s);
      RouteGoing(plan, cfg, s);
      RouteKept(plan, cfg, Cleared(s));
    } else {
      hide Sound, FirstFiring, RoutingThrows;
      CrashSound(plan, cfg, s);
    }
  }

  /** Before the first run nothing is settled but by people, and a fresh run ignores exactly that. */
  lemma FreshIgnores(rows: Rows)
    requires forall k :: k in rows ==> Untouched(rows[k])
    ensures NothingSettled(ClearedRows(FRESH_RUN, rows)) && IgnoredByHuman(FRESH_RUN, rows)
    ensures forall k :: k in rows ==> ClearedRows(FRESH_RUN, rows)[k].attempts == 0
  {
  }

  lemma NothingSettledKept(plan: Plan, rows: Rows, run: Run)
    requires StoreKept(plan, rows) && NothingSettled(ClearedRows(run, rows))
    ensures StoreKept(plan, ClearedRows(run, rows))
  {
    hide NodeKeys, NodeOf;
    var cleared := ClearedRows(run, rows);
    forall k | k in rows && k in NodeKeys(plan)
      ensures RowKept(NodeOf(plan, k), cleared[k])
    {
      assert RowKept(NodeOf(plan, k), rows[k]);
    }
  }

  lemma ExecuteSound(plan: Plan, cfg: Config, s: Sys)
    requires Sound(plan, cfg, s) && s.mode.Idle? && s.store.status == Pending && Unstarted(s.store)
    ensures Sound(plan, cfg, ExecuteStep(cfg, s))
  {
    hide StoreKept, Agree, SameRecord, ClearedRows, NothingSettled;
    var cleared := s.(store := ClearedStore(FRESH_RUN, s.store), durable := ClearedStore(FRESH_RUN, s.durable));
    FreshIgnores(s.store.rows);
    NothingSettledKept(plan, s.store.rows, FRESH_RUN);
    SameRecordReflexive(cleared.store.rows);
    ClearedKeys(FRESH_RUN, s.store.rows);
    ExecuteKept(plan, cfg, cleared);
    assert Cleared(ExecuteStep(cfg, s)) == ExecuteStep(cfg, cleared);
  }

  lemma ClearedKeys(run: Run, rows: Rows)
    ensures ClearedRows(run, rows).Keys == rows.Keys
  {
  }

  /** A resumed run knows of every skip on the rows. */
  lemma ResumeIgnoresNothing(cfg: Config, s: Sys)
    requires s.store == s.durable
    ensures Cleared(ResumeStep(cfg, s)) == ResumeStep(cfg, s)
    ensures var s' := ResumeStep(cfg, s);
      IgnoredByHuman(s'.mode.run, s'.store.rows) && IgnoredByHuman(s'.mode.run, s'.durable.rows)
    ensures SameOutcomes(ResumeStep(cfg, s).store.rows, ResumeStep(cfg, s).durable.rows)
  {
    hide ReasonOf;
    var s' := ResumeStep(cfg, s);
    assert forall k :: !Ignored(s'.mode.run, s'.store.rows, k) && !Ignored(s'.mode.run, s'.durable.rows, k);
    assert ClearedRows(s'.mode.run, s'.store.rows) == s'.store.rows;
    assert ClearedRows(s'.mode.run, s'.durable.rows) == s'.durable.rows;
  }

  lemma ResumeSound(plan: Plan, cfg: Config, s: Sys)
    requires Sound(plan, cfg, s) && s.mode.Idle?
    ensures Sound(plan, cfg, ResumeStep(cfg, s))
  {
    hide StoreKept, ResumeStep, IgnoredByHuman, SameOutcomes;
    ResumeIgnoresNothing(cfg, s);
    ResumeKept(plan, cfg, s);
  }

  /** Controls and sweeps act on a system at rest. */
  lemma RestSound(plan: Plan, cfg: Config, s: Sys, e: Event)
    requires Sound(plan, cfg, s) && s.mode.Idle? && Enabled(plan, cfg, s, e)
    requires e.CrashNoted? || e.Interrupt? || e.Approve? || e.Reject? || e.Retry? || e.OperatorSkip?
    ensures Sound(plan, cfg, Effect(plan, cfg, s, e))
  {
    hide StoreKept, InterruptedRows, ReopenedRows, Affected, DecidedRow, SkipRow, SameRecord;
    match e {
      case CrashNoted =>
      case Interrupt => InterruptedKept(plan, s.store.rows);
      case Approve(key, reason) => DecisionKept(plan, cfg, s, key, Decision(true, reason));
      case Reject(key, reason, actor) =>
        DecisionKept(plan, cfg, s, key, Decision(false, RejectionReason(reason, actor)));
      case Retry(key) => RetryKept(plan, cfg, s, key);
      case OperatorSkip(key, reason) =>
        OperatorSkipKept(plan, cfg, s, key, if reason != "" then reason else "skipped by operator");
    }
    AtRestSound(plan, cfg, Effect(plan, cfg, s, e).store);
  }

  lemma CancelSound(plan: Plan, cfg: Config, s: Sys)
    requires Sound(plan, cfg, s) && Enabled(plan, cfg, s, RequestCancel)
    ensures Sound(plan, cfg, Effect(plan, cfg, s, RequestCancel))
  {
    hide StoreKept, Agree, SameRecord, ClearedRows, Ignored, DispatchedWell, IgnoredByHuman, SameOutcomes;
  }

  lemma FailSound(plan: Plan, cfg: Config, s: Sys)
    requires Sound(plan, cfg, s)
    ensures Sound(plan, cfg, Committed(s.store.(status := Broken), Idle))
  {
    hide Sound;
    SoundFacts(plan, cfg, s);
    AtRestSound(plan, cfg, s.store.(status := Broken));
  }

  lemma StepSound(plan: Plan, cfg: Config, s: Sys, e: Event)
    requires Invariant(plan, cfg, s)
    ensures Sound(plan, cfg, Step(plan, cfg, s, e))
  {
    hide Sound, NodeKeys, StoredView, DecideStep, RecordStep, RouteStep, ExecuteStep, ResumeStep;
    if Enabled(plan, cfg, s, e) {
      match e
      case Execute => ExecuteSound(plan, cfg, s);
      case Resume => ResumeSound(plan, cfg, s);
      case Decide => DecideSound(plan, cfg, s);
      case Record(results) => RecordSound(plan, cfg, s, results);
      case Route => RouteSound(plan, cfg, s);
      case Fail => FailSound(plan, cfg, s);
      case Crash => CrashSound(plan, cfg, s);
      case RequestCancel => CancelSound(plan, cfg, s);
      case _ => RestSound(plan, cfg, s, e);
    }
  }

  lemma StepInvariant(plan: Plan, cfg: Config, s: Sys, e: Event)
    requires Invariant(plan, cfg, s)
    ensures Invariant(plan, cfg, Step(plan, cfg, s, e))
  {
    hide Sound;
    StepSound(plan, cfg, s, e);
  }
}
