/** What becomes of a verdict that is sent back: its text waits in the run's memory, is handed over in the
    next round, and does not survive the run. */
module Feedback {
  import opened Collections
  import opened Graphs
  import opened Conditions
  import opened Plans
  import opened Protocol
  import opened Invariants
  import opened Histories
  import opened Soundness
  import opened Safety

  /** The step sends `text` back to `target`. */
  ghost predicate Sends(plan: Plan, cfg: Config, s: Sys, target: Key, text: string) {
    && RoutesTo(plan, cfg, s, target) && s.mode.phase == Recorded(false)
    && var giver := FirstFiring(cfg, s.mode.run, plan.nodes).value;
      text == FeedbackText(cfg, giver.feedback.value, s.mode.run.outputs[giver.key].payload)
  }

  predicate Waits(s: Sys, target: Key, text: string) {
    s.mode.Active? && target in s.mode.run.pending && s.mode.run.pending[target] == text
  }

  /** `target` has just been dispatched, with `feedback`. */
  predicate HandsOver(s: Sys, target: Key, feedback: Option<string>) {
    && s.mode.Active? && s.mode.phase.Dispatched? && target in s.mode.phase.inputs
    && s.mode.phase.inputs[target].feedback == feedback
  }

  lemma RouteSends(plan: Plan, cfg: Config, s: Sys, target: Key, text: string)
    requires Sends(plan, cfg, s, target, text)
    ensures var s' := Step(plan, cfg, s, Route);
      && s' == Committed(s.store.(rows := ReopenedRows(s.store.rows, Affected(plan, target))),
                         s.mode.(run := ReopenedRun(s.mode.run, target, text, Affected(plan, target)), phase := Head))
      && Waits(s', target, text) && Repairs(s'.mode.run, target) >= 1
  {
    hide FirstFiring, RoutingThrows, FeedbackText, Affected, ReopenedRows;
  }

  // ---- delivery -------------------------------------------------------------------------------

  /** What a node depends on is not among what its repair reopens. */
  lemma SourcesStay(plan: Plan, target: Key, e: Edge)
    requires ValidPlan(plan) && e in plan.edges && e.target == target
    ensures e.source !in Affected(plan, target)
  {
    hide Reaches;
    var arcs := ArcsOf(plan.edges);
    var rank :| Ranks(arcs, rank);
    assert (e.source, e.target) in arcs && KnownEdge(plan, e);
    DescendantsAreReached(plan, target, e.source);
    if e.source in Affected(plan, target) {
      ReachesRises(arcs, rank, target, e.source);
    }
  }

  lemma ReopenedRunView(run: Run, target: Key, text: string, keys: set<Key>)
    ensures var v := RunView(run);
      RunView(ReopenedRun(run, target, text, keys)) == View(v.results - keys, v.skips - keys)
  {
    var run' := ReopenedRun(run, target, text, keys);
    assert RunView(run').results == RunView(run).results - keys;
  }

  lemma RecordedFacts(plan: Plan, cfg: Config, s: Sys)
    requires Sound(plan, cfg, s) && s.mode.Active? && s.mode.phase == Recorded(false)
    ensures StoreKept(plan, ClearedRows(s.mode.run, s.store.rows))
    ensures Agree(s.mode.run, ClearedRows(s.mode.run, s.store.rows)) && AllSucceeded(s.mode.run)
  {
    hide StoreKept, Agree, SameRecord, ClearedRows;
  }

  lemma CompletedIsApproved(plan: Plan, rows: Rows, key: Key)
    requires StoreKept(plan, rows) && key in rows && key in NodeKeys(plan) && rows[key].status == Completed
    ensures NodeOf(plan, key).requiresApproval ==> rows[key].approval.Some? && rows[key].approval.value.approved
  {
    assert RowKept(NodeOf(plan, key), rows[key]);
  }

  /** A node that had a result when a verdict was sent back to it is called for again at once: its sources
      still stand, and if it is gated it was approved before it first ran. */
  lemma TargetIsCalledFor(plan: Plan, cfg: Config, s: Sys, target: Key, text: string)
    requires ValidPlan(plan) && Sound(plan, cfg, s) && s.mode.Active? && s.mode.phase == Recorded(false)
    requires target in s.mode.run.outputs
    ensures var keys := Affected(plan, target);
      RuleFor(plan, RunView(ReopenedRun(s.mode.run, target, text, keys)), ReopenedRows(s.store.rows, keys), target)
      == Go
  {
    hide Sound, StoreKept, Agree, AllSucceeded, ValidPlan, SkipReason, UpstreamFor, NodeKeys, Descendants;
    var run, rows, keys := s.mode.run, s.store.rows, Affected(plan, target);
    var cleared := ClearedRows(run, rows);
    var v, w := RunView(run), RunView(ReopenedRun(run, target, text, keys));
    RecordedFacts(plan, cfg, s);
    MemoryIsFresh(plan, cleared, run);
    CompletedIsApproved(plan, cleared, target);
    ReopenedRunView(run, target, text, keys);
    forall e | e in plan.edges && e.target == target
      ensures SameAt(v, w, e.source)
    {
      SourcesStay(plan, target, e);
    }
    VerdictsAreLocal(plan, v, w, NodeOf(plan, target));
  }

  /** A node that is called for is dispatched with the feedback that waits for it, and nothing waits for it
      then, unless the workflow was cancelled or a verdict raises. */
  lemma CalledIsHandedOver(plan: Plan, cfg: Config, s: Sys, key: Key)
    requires s.mode.Active? && s.mode.phase.Head?
    requires RuleFor(plan, RunView(s.mode.run), s.store.rows, key) == Go
    ensures var s' := Step(plan, cfg, s, Decide);
      if s.store.cancelRequested || RoundThrows(plan, RunView(s.mode.run)) then s'.mode.Idle?
      else HandsOver(s', key, PendingFor(s.mode.run.pending, key)) && key !in s'.mode.run.pending
  {
    hide RuledRows, NewSkips, RoundThrows, AnyGate, CancelledRows, RunView, UpstreamFor;
    var v := RunView(s.mode.run);
    assert key in NodeKeys(plan) && AnyReady(plan, v, s.store.rows);
    assert key in BatchOf(plan, v, s.store.rows, plan.nodes);
  }

  /** Delivery: a verdict sent back to a node that had a result is handed over by the very next decision,
      once, and exactly unless the workflow was cancelled or a verdict of that round raises. */
  lemma FeedbackIsDelivered(plan: Plan, cfg: Config, events: seq<Event>, target: Key, text: string)
    requires ValidPlan(plan)
    requires var s := History(plan, cfg, events); Sends(plan, cfg, s, target, text) && target in s.mode.run.outputs
    ensures var sent := History(plan, cfg, events + [Route]);
      var next := History(plan, cfg, events + [Route] + [Decide]);
      && Waits(sent, target, text)
      && if sent.store.cancelRequested || RoundThrows(plan, RunView(sent.mode.run)) then next.mode.Idle?
         else HandsOver(next, target, Some(text)) && target !in next.mode.run.pending
  {
    hide Sound, ValidPlan, Step, Sends, RuleFor, Affected, ReopenedRows, RunView, RoundThrows;
    var s := History(plan, cfg, events);
    HistorySound(plan, cfg, events);
    NextStep(plan, cfg, events, Route);
    NextStep(plan, cfg, events + [Route], Decide);
    RouteSends(plan, cfg, s, target, text);
    SendsWhenRecorded(plan, cfg, s, target, text);
    TargetIsCalledFor(plan, cfg, s, target, text);
    CalledIsHandedOver(plan, cfg, Step(plan, cfg, s, Route), target);
  }

  lemma SendsWhenRecorded(plan: Plan, cfg: Config, s: Sys, target: Key, text: string)
    requires Sends(plan, cfg, s, target, text)
    ensures s.mode.Active? && s.mode.phase == Recorded(false)
  {
  }

  /** A node that the engine skipped, and its repair would skip for the same reason. */
  lemma SkippedTargetIsSkippedAgain(plan: Plan, cfg: Config, s: Sys, target: Key, text: string)
    requires ValidPlan(plan) && Sound(plan, cfg, s) && s.mode.Active? && s.mode.phase == Recorded(false)
    requires target in s.mode.run.skipped && target in s.store.rows && !s.store.rows[target].byHuman
    ensures var keys := Affected(plan, target);
      RuleFor(plan, RunView(ReopenedRun(s.mode.run, target, text, keys)), ReopenedRows(s.store.rows, keys), target)
      == SkipIt(s.mode.run.skipped[target])
  {
    hide Sound, Agree, AllSucceeded, ValidPlan, SkipReason, UpstreamFor, NodeKeys, Descendants, Kept, NodeOf;
    var run, rows, keys := s.mode.run, s.store.rows, Affected(plan, target);
    var cleared := ClearedRows(run, rows);
    var v, w := RunView(run), RunView(ReopenedRun(run, target, text, keys));
    RecordedFacts(plan, cfg, s);
    MemoryIsFresh(plan, cleared, run);
    assert DependenciesResolved(plan, v, target) by {
      AgreementOfViews(run, cleared);
      assert cleared[target].status == Skipped && FreshAt(plan, v, cleared[target], target);
    }
    ReopenedRunView(run, target, text, keys);
    forall e | e in plan.edges && e.target == target
      ensures SameAt(v, w, e.source)
    {
      SourcesStay(plan, target, e);
    }
    VerdictsAreLocal(plan, v, w, NodeOf(plan, target));
  }

  lemma SkippedIsNotHandedOver(plan: Plan, cfg: Config, s: Sys, key: Key)
    requires s.mode.Active? && s.mode.phase.Head?
    requires RuleFor(plan, RunView(s.mode.run), s.store.rows, key).SkipIt?
    ensures var s' := Step(plan, cfg, s, Decide);
      && !(s'.mode.Active? && s'.mode.phase.Dispatched? && key in s'.mode.phase.inputs)
      && (s'.mode.Active? && key in s.mode.run.pending ==> Waits(s', key, s.mode.run.pending[key]))
  {
    hide RuledRows, NewSkips, RoundThrows, AnyGate, AnyReady, CancelledRows, RunView, UpstreamFor;
    assert key !in BatchOf(plan, RunView(s.mode.run), s.store.rows, plan.nodes);
  }

  /** A verdict sent back to a node that the engine skipped does not reach it: the node is skipped again,
      and the text goes on waiting. */
  lemma FeedbackMissesSkippedNode(plan: Plan, cfg: Config, events: seq<Event>, target: Key, text: string)
    requires ValidPlan(plan)
    requires var s := History(plan, cfg, events);
      && Sends(plan, cfg, s, target, text) && target in s.mode.run.skipped
      && target in s.store.rows && !s.store.rows[target].byHuman
    ensures var next := History(plan, cfg, events + [Route] + [Decide]);
      next.mode.Active? ==>
        Waits(next, target, text) && !(next.mode.phase.Dispatched? && target in next.mode.phase.inputs)
  {
    hide Sound, ValidPlan, Step, Sends, RuleFor, Affected, ReopenedRows, RunView, RoundThrows;
    var s := History(plan, cfg, events);
    HistorySound(plan, cfg, events);
    NextStep(plan, cfg, events, Route);
    NextStep(plan, cfg, events + [Route], Decide);
    RouteSends(plan, cfg, s, target, text);
    SendsWhenRecorded(plan, cfg, s, target, text);
    SkippedTargetIsSkippedAgain(plan, cfg, s, target, text);
    SkippedIsNotHandedOver(plan, cfg, Step(plan, cfg, s, Route), target);
  }

  // ---- provenance ------------------------------------------------------------------------------

  /** What waits was waiting before, or has just been sent. */
  lemma WaitingStep(plan: Plan, cfg: Config, s: Sys, e: Event, key: Key, text: string)
    requires Waits(Step(plan, cfg, s, e), key, text)
    ensures Waits(s, key, text) || (e.Route? && Sends(plan, cfg, s, key, text))
  {
    hide RuledRows, NewSkips, BatchOf, AnyReady, RoundThrows, AnyGate, InputsFor, RunView, RecordedRows, BatchCost;
    hide FirstFiring, RoutingThrows, FeedbackText, Affected, ReopenedRows, CancelledRows, ResumableRows;
    hide ResultsAllowed, InterruptedRows, DecidedRow, SkipRow, StoredView;
  }

  /** Whatever waits for a node is the text of a verdict that some step sent back to it, and it has waited,
      in one run, since. */
  lemma {:induction false} FeedbackComesFromVerdict(
    plan: Plan, cfg: Config, events: seq<Event>, key: Key, text: string) returns (at: nat)
    requires Waits(History(plan, cfg, events), key, text)
    ensures at < |events| && events[at].Route? && Sends(plan, cfg, History(plan, cfg, events[..at]), key, text)
    ensures forall i :: at < i <= |events| ==> Waits(History(plan, cfg, events[..i]), key, text)
    decreases |events|
  {
    hide Step, Sends, Waits;
    var n := |events| - 1;
    assert events[..|events|] == events;
    if n < 0 {
      NothingWaits(plan, key, text);
    } else {
      WaitingStep(plan, cfg, History(plan, cfg, events[..n]), events[n], key, text);
      if Waits(History(plan, cfg, events[..n]), key, text) {
        at := FeedbackComesFromVerdict(plan, cfg, events[..n], key, text);
        assert events[..n][..at] == events[..at];
        forall i | at < i <= |events|
          ensures Waits(History(plan, cfg, events[..i]), key, text)
        {
          if i <= n {
            assert events[..n][..i] == events[..i];
          }
        }
      } else {
        at := n;
      }
    }
  }

  lemma NothingWaits(plan: Plan, key: Key, text: string)
    ensures !Waits(Created(plan), key, text)
  {
  }

  /** A dispatched node is given exactly what waited for it. */
  lemma HandedOverWaited(plan: Plan, cfg: Config, s: Sys, key: Key, text: string)
    requires s.mode.Active? && s.mode.phase.Head? && HandsOver(Step(plan, cfg, s, Decide), key, Some(text))
    ensures Waits(s, key, text)
  {
    hide RuledRows, NewSkips, BatchOf, AnyReady, RoundThrows, AnyGate, RunView, CancelledRows;
  }

  // ---- what does not survive the run ---------------------------------------------------------------

  /** A crash right after a verdict was sent back, and a resume: the target is reopened and will run again
      without the text, and the repair is not counted. No skip need be ignored for that. */
  lemma FeedbackLostInCrash(plan: Plan, cfg: Config, events: seq<Event>, target: Key, text: string)
    requires Sends(plan, cfg, History(plan, cfg, events), target, text)
    ensures var sent := History(plan, cfg, events + [Route]);
      var resumed := History(plan, cfg, events + [Route] + [Crash] + [Resume]);
      && Waits(sent, target, text) && Repairs(sent.mode.run, target) >= 1
      && resumed.mode.Active? && resumed.mode.run.pending == map[] && NoRepairs(resumed.mode.run)
      && target in resumed.store.rows && resumed.store.rows[target].status == Waiting
      && !SameMemory(plan, sent.mode.run, resumed.mode.run)
  {
    hide Sound, Sends, SameRecord;
    var s := History(plan, cfg, events);
    HistoryInvariant(plan, cfg, events);
    NextStep(plan, cfg, events, Route);
    NextStep(plan, cfg, events + [Route], Crash);
    NextStep(plan, cfg, events + [Route] + [Crash], Resume);
    RouteSends(plan, cfg, s, target, text);
    SendsToKnown(plan, cfg, s, target, text);
    RestoredForgets(ResumableRows(ReopenedRows(s.store.rows, Affected(plan, target))));
  }

  /** Memory after the first attempt of a plan's sole node. */
  lemma SoleNodeSends(node: Node, cfg: Config, s: Sys, out: Output)
    requires node.feedback.Some? && node.feedback.value.target == node.key && cfg.cycles >= 1
    requires out.status == Succeeded && Holds(node.feedback.value.condition, out.payload)
    requires !DetailOf(node.feedback.value, out.payload).LookupRaises?
    requires s.mode.Active? && s.mode.phase == Recorded(false) && node.key in s.store.rows
    requires s.mode.run.outputs == map[node.key := out] && s.mode.run.repairs == map[]
    ensures Sends(Plan([node], []), cfg, s, node.key, FeedbackText(cfg, node.feedback.value, out.payload))
  {
    hide FeedbackText, DetailOf;
    assert FirstFiring(cfg, s.mode.run, [node]) == Some(node);
  }

  /** A plan's sole node has been dispatched by a fresh run, and answers. */
  lemma SoleNodeAnswers(node: Node, cfg: Config, s: Sys, out: Output)
    requires s.mode.Active? && s.mode.phase.Dispatched? && s.mode.phase.inputs.Keys == {node.key}
    requires s.store.rows.Keys == {node.key}
    requires s.mode.run.attempts == map[] && s.mode.run.outputs == map[] && s.mode.run.repairs == map[]
    requires out.status == Succeeded && out.attempt == 1
    ensures var s' := Step(Plan([node], []), cfg, s, Record(map[node.key := [out]]));
      && s'.mode.Active? && s'.mode.phase == Recorded(false) && node.key in s'.store.rows
      && s'.mode.run.outputs == map[node.key := out] && s'.mode.run.repairs == map[]
  {
    hide RecordedRow, BatchCost;
    var results: Results := map[node.key := [out]];
    assert Step(Plan([node], []), cfg, s, Record(results)) == RecordStep(s, results);
    assert RecordedRun(s.mode.run, s.mode.phase.batch, results).outputs == map[node.key := out];
  }

  lemma SoleNodeStarts(node: Node, cfg: Config)
    ensures var s := History(Plan([node], []), cfg, [] + [Execute]);
      && s.store.rows.Keys == {node.key} && !s.store.cancelRequested
      && s.mode.Active? && s.mode.run == FRESH_RUN && s.mode.phase.Head?
  {
    var plan := Plan([node], []);
    assert NodeKeys(plan) == {node.key} by {
      assert node in plan.nodes;
    }
    assert History(plan, cfg, []) == Created(plan);
    NextStep(plan, cfg, [], Execute);
  }

  /** Six events are enough: a node that sends its verdict back to itself, a crash and a resume. */
  lemma SoleNodeForgets(node: Node, cfg: Config, out: Output)
    requires !node.requiresApproval && out.status == Succeeded && out.attempt == 1
    requires node.feedback.Some? && node.feedback.value.target == node.key && cfg.cycles >= 1
    requires Holds(node.feedback.value.condition, out.payload)
    requires !DetailOf(node.feedback.value, out.payload).LookupRaises?
    ensures var plan := Plan([node], []);
      var ran := [] + [Execute] + [Decide] + [Record(map[node.key := [out]])];
      && Waits(History(plan, cfg, ran + [Route]), node.key, FeedbackText(cfg, node.feedback.value, out.payload))
      && History(plan, cfg, ran + [Route] + [Crash] + [Resume]).mode.Active?
      && History(plan, cfg, ran + [Route] + [Crash] + [Resume]).mode.run.pending == map[]
  {
    hide History, Step, Sends, Waits;
    var plan, first := Plan([node], []), Record(map[node.key := [out]]);
    SoleNodeStarts(node, cfg);
    NextStep(plan, cfg, [] + [Execute], Decide);
    NextStep(plan, cfg, [] + [Execute] + [Decide], first);
    SoleNodeDispatched(node, cfg, History(plan, cfg, [] + [Execute]));
    SoleNodeAnswers(node, cfg, History(plan, cfg, [] + [Execute] + [Decide]), out);
    var ran := [] + [Execute] + [Decide] + [first];
    SoleNodeSends(node, cfg, History(plan, cfg, ran), out);
    FeedbackLostInCrash(plan, cfg, ran, node.key, FeedbackText(cfg, node.feedback.value, out.payload));
  }

  lemma SendsToKnown(plan: Plan, cfg: Config, s: Sys, target: Key, text: string)
    requires Sends(plan, cfg, s, target, text)
    ensures s.mode.Active? && target in s.store.rows
  {
    hide FirstFiring, FeedbackText;
  }
}
