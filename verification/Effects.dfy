/** What each event does, said of the rows, the run's memory and the commits: when it is accepted, the whole
    new state, and what it leaves alone. */
module Effects {
  import opened Collections
  import opened Graphs
  import opened Conditions
  import opened Plans
  import opened Protocol
  import opened Invariants
  import opened Histories
  import opened Soundness
  import opened Safety
  import opened Endings
  import opened Planner

  // ---- operator controls -----------------------------------------------------------------------------

  function Resting(store: Store): Sys {
    Sys(store, store, Idle)
  }

  /** A control of a node is accepted on a workflow that is not running, for a known node. */
  predicate AtNode(s: Sys, key: Key) {
    s.mode.Idle? && s.store.status != InProgress && key in s.store.rows
  }

  /** An approval is accepted exactly for a node that awaits one; the node waits to be run. */
  lemma ApproveExactly(plan: Plan, cfg: Config, s: Sys, key: Key, reason: string)
    ensures var s' := Step(plan, cfg, s, Approve(key, reason));
      if AtNode(s, key) && s.store.rows[key].status == AwaitingApproval then
        s' == Resting(s.store.(rows := s.store.rows[key :=
                s.store.rows[key].(approval := Some(Decision(true, reason)), status := Waiting, skipReason := None)]))
      else s' == s
  {
  }

  /** So is a rejection; the node is skipped, by a person, for the reason given or else for who rejected it. */
  lemma RejectExactly(plan: Plan, cfg: Config, s: Sys, key: Key, reason: string, actor: string)
    ensures var s' := Step(plan, cfg, s, Reject(key, reason, actor));
      var why := if reason == "" then "rejected by " + actor else reason;
      if AtNode(s, key) && s.store.rows[key].status == AwaitingApproval then
        s' == Resting(s.store.(rows := s.store.rows[key :=
                s.store.rows[key].(approval := Some(Decision(false, why)), status := Skipped,
                                   skipReason := Some(why), byHuman := true)]))
      else s' == s
  {
  }

  predicate MaySkip(status: NodeStatus) {
    status != Completed && status != Skipped && status != Running && status != Cancelled
  }

  /** A skip is accepted exactly for a node that has no result and no skip, is not running and is not
      cancelled. */
  lemma SkipExactly(plan: Plan, cfg: Config, s: Sys, key: Key, reason: string)
    ensures var s' := Step(plan, cfg, s, OperatorSkip(key, reason));
      var why := if reason == "" then "skipped by operator" else reason;
      if AtNode(s, key) && MaySkip(s.store.rows[key].status) then
        s' == Resting(s.store.(rows := s.store.rows[key :=
                s.store.rows[key].(status := Skipped, skipReason := Some(why), byHuman := true)]))
      else s' == s
  {
    assert forall status :: MaySkip(status) <==> status in {Waiting, Ready, Failed, AwaitingApproval};
  }

  ghost predicate AtOrBelow(plan: Plan, target: Key, key: Key) {
    key == target || Reaches(ArcsOf(plan.edges), target, key)
  }

  lemma AffectedIsBelow(plan: Plan, target: Key, key: Key)
    ensures key in Affected(plan, target) <==> AtOrBelow(plan, target, key)
  {
    DescendantsAreReached(plan, target, key);
  }

  lemma ReopenedAsSaid(plan: Plan, rows: Rows, target: Key, rows': Rows)
    requires rows' == ReopenedRows(rows, Affected(plan, target))
    ensures rows'.Keys == rows.Keys
    ensures forall k :: k in rows ==>
      if AtOrBelow(plan, target, k) then
        rows'[k] == rows[k].(status := Waiting, payload := JObj(map[]), skipReason := None, basis := [],
                             byHuman := false)
      else rows'[k] == rows[k]
  {
    hide Affected, AtOrBelow;
    forall k | k in rows
      ensures k in Affected(plan, target) <==> AtOrBelow(plan, target, k)
    {
      AffectedIsBelow(plan, target, k);
    }
  }

  /** A retry is accepted exactly for a node that failed; it and everything below it wait again. */
  lemma RetryExactly(plan: Plan, cfg: Config, s: Sys, key: Key)
    ensures var s' := Step(plan, cfg, s, Retry(key));
      if AtNode(s, key) && s.store.rows[key].status == Failed then
        && s' == Resting(s.store.(rows := s'.store.rows)) && s'.store.rows.Keys == s.store.rows.Keys
        && forall k :: k in s.store.rows ==>
             if AtOrBelow(plan, key, k) then
               s'.store.rows[k] == s.store.rows[k].(status := Waiting, payload := JObj(map[]), skipReason := None,
                                                    basis := [], byHuman := false)
             else s'.store.rows[k] == s.store.rows[k]
      else s' == s
  {
    hide Affected, AtOrBelow, ReopenedRows;
    ReopenedAsSaid(plan, s.store.rows, key, ReopenedRows(s.store.rows, Affected(plan, key)));
  }

  /** A cancellation is taken down exactly while the committed workflow has not ended, and changes nothing
      else. */
  lemma CancelExactly(plan: Plan, cfg: Config, s: Sys)
    ensures Step(plan, cfg, s, RequestCancel) ==
      if s.durable.status == Finished || s.durable.status == Broken || s.durable.status == Stopped then s
      else Sys(s.store.(cancelRequested := true), s.durable.(cancelRequested := true), s.mode)
  {
  }

  /** A new workflow is pending, every node waits and has no past, and nothing was spent. */
  lemma CreatedExactly(plan: Plan)
    ensures var s := Created(plan);
      && s == Resting(s.store) && s.store.status == Pending && s.store.cost == 0.0 && !s.store.cancelRequested
      && s.store.rows.Keys == NodeKeys(plan)
      && forall k :: k in s.store.rows ==>
           var row := s.store.rows[k];
           && row.status == Waiting && row.skipReason == None && row.approval == None && row.attempts == 0
           && row.log == [] && !row.byHuman && row.payload == JObj(map[]) && row.basis == []
  {
  }

  // ---- starting, resuming and stopping ---------------------------------------------------------------------

  /** A workflow is executed exactly while pending, with empty memory and the whole of what remains. */
  lemma ExecuteExactly(plan: Plan, cfg: Config, s: Sys)
    ensures var s' := Step(plan, cfg, s, Execute);
      if s.mode.Idle? && s.store.status == Pending then
        s' == Sys(s.store.(status := InProgress), s.durable,
                  Active(Run(map[], map[], map[], map[], map[], 0.0), Left(cfg.budget, s.store.cost), Head))
      else s' == s
  {
  }

  /** What is left of a budget: nothing once as much has been spent. */
  function Left(budget: Option<Usd>, spent: Usd): Option<Usd> {
    match budget
    case None => None
    case Some(most) => Some(if spent < most then most - spent else 0.0)
  }

  /** A node to be considered again, or one that keeps its outcome or its gate. */
  predicate Resumable(status: NodeStatus) {
    status == Waiting || status == AwaitingApproval || status == Completed || status == Skipped
  }

  /** A workflow is resumed exactly unless completed. Afterwards every node waits, awaits a decision, or has an
      outcome: those that did before are as they were, and the others wait and are otherwise as they were. The
      run knows every outcome and every attempt, and no cancellation is in force. */
  lemma ResumeExactly(plan: Plan, cfg: Config, s: Sys)
    ensures var s' := Step(plan, cfg, s, Resume);
      if s.mode.Idle? && s.store.status != Finished then
        && s'.durable == s.durable
        && s'.store == s.store.(status := InProgress, cancelRequested := false, rows := s'.store.rows)
        && s'.store.rows.Keys == s.store.rows.Keys
        && (forall k :: k in s.store.rows ==>
              s'.store.rows[k] == if Resumable(s.store.rows[k].status) then s.store.rows[k]
                                  else s.store.rows[k].(status := Waiting))
        && s'.mode.Active? && s'.mode.phase.Head? && s'.mode.remaining == Left(cfg.budget, s.store.cost)
        && RemembersStored(s'.mode.run, s.store.rows)
      else s' == s
  {
    assert forall status :: Resumable(status) <==> status !in {Cancelled, Running, Ready, Failed};
    hide Resumable;
    RestoredRemembers(s.store.rows);
  }

  /** Results, skips with their reasons, and attempts come from the rows; nothing else is remembered. */
  ghost predicate RemembersStored(run: Run, rows: Rows) {
    && (forall k :: HasResult(run, k) <==> k in rows && rows[k].status == Completed)
    && (forall k :: k in run.outputs ==> HasResult(run, k))
    && (forall k :: HasResult(run, k) ==>
          k in rows && run.outputs[k].payload == rows[k].payload && run.outputs[k].cost == 0.0)
    && (forall k :: k in run.skipped <==> k in rows && rows[k].status == Skipped)
    && (forall k :: k in run.skipped && k in rows ==>
          run.skipped[k] == match rows[k].skipReason
            case Some(reason) => if reason == "" then "skipped" else reason
            case None => "skipped")
    && (forall k :: k in rows ==> k in run.attempts && run.attempts[k] == rows[k].attempts)
    && run.pending == map[] && run.repairs == map[] && run.totalCost == 0.0
  }

  lemma RestoredRemembers(rows: Rows)
    ensures RemembersStored(RestoredRun(ResumableRows(rows)), rows)
  {
  }

  /** A crash loses the memory and whatever was not committed, and nothing else. */
  lemma CrashExactly(plan: Plan, cfg: Config, s: Sys)
    ensures Step(plan, cfg, s, Crash) == if s.mode.Active? then Resting(s.durable) else s
  {
  }

  /** Noting a crash marks the workflow failed, whatever it was. */
  lemma CrashNotedExactly(plan: Plan, cfg: Config, s: Sys)
    ensures Step(plan, cfg, s, CrashNoted) == if s.mode.Idle? then Resting(s.store.(status := Broken)) else s
  {
  }

  /** The sweep at process start stops what seemed to be running or pending, and cancels exactly the nodes that
      seemed to be running. */
  lemma InterruptExactly(plan: Plan, cfg: Config, s: Sys)
    ensures var s' := Step(plan, cfg, s, Interrupt);
      if s.mode.Idle? then
        && s' == Resting(s'.store) && s'.store.rows.Keys == s.store.rows.Keys
        && s'.store == s.store.(rows := s'.store.rows, status := s'.store.status)
        && s'.store.status == (if s.store.status == InProgress || s.store.status == Pending then Stopped
                               else s.store.status)
        && forall k :: k in s.store.rows ==>
             s'.store.rows[k] == if s.store.rows[k].status == Running then s.store.rows[k].(status := Cancelled)
                                 else s.store.rows[k]
      else s' == s
  {
  }

  // ---- recording a batch -----------------------------------------------------------------------------------

  function Entries(outs: seq<Output>): (log: seq<LogEntry>)
    ensures |log| == |outs|
    ensures forall i :: 0 <= i < |outs| ==> log[i] == LogEntry(outs[i].attempt, outs[i].status, outs[i].cost)
  {
    seq(|outs|, i requires 0 <= i < |outs| => LogEntry(outs[i].attempt, outs[i].status, outs[i].cost))
  }

  lemma {:induction false} RecordingLogs(row: Row, outs: seq<Output>, upstream: seq<Upstream>)
    ensures RecordAll(row, outs, upstream).log == row.log + Entries(outs)
  {
    if outs != [] {
      var n := |outs| - 1;
      RecordingLogs(row, outs[..n], upstream);
      assert Entries(outs) == Entries(outs[..n]) + [LogEntry(outs[n].attempt, outs[n].status, outs[n].cost)];
    }
  }

  /** The attempts of one node: numbered on from those before, each but the last a failure that may be
      retried, and the last a success, a failure that may not, or the last one allowed. */
  ghost predicate TriedAsAllowed(tries: nat, before: nat, outs: seq<Output>) {
    && 1 <= |outs| <= tries
    && (forall i :: 0 <= i < |outs| ==> outs[i].attempt == before + 1 + i)
    && (forall i :: 0 <= i < |outs| ==>
          (i < |outs| - 1 <==> outs[i].status != Succeeded && outs[i].retryable && i < tries - 1))
  }

  /** What recording leaves on a row. */
  ghost predicate RecordedAs(row: Row, outs: seq<Output>, upstream: seq<Upstream>, row': Row)
    requires outs != []
  {
    var last := outs[|outs| - 1];
    && row'.log == row.log + Entries(outs)
    && row'.attempts == row.attempts + |outs| && row'.approval == row.approval
    && (if last.status == Succeeded then
          row'.status == Completed && row'.payload == last.payload && row'.basis == upstream
        else row'.status == Failed)
  }

  lemma RecordedAsSaid(plan: Plan, rows: Rows, inputs: map<Key, AgentInput>, results: Results, key: Key)
    requires RecordingFits(plan, rows, inputs, results) && key in inputs
    ensures key in rows && results[key] != []
    ensures RecordedAs(rows[key], results[key], inputs[key].upstream, RecordedRows(rows, inputs, results)[key])
  {
    hide Kept, NodeOf, NodeKeys;
    RecordedEffect(plan, rows, inputs, results, key);
    RecordingLogs(rows[key], results[key], inputs[key].upstream);
  }

  /** What recording leaves of one node, in the rows and in memory. */
  ghost predicate NodeRecorded(plan: Plan, cfg: Config, s: Sys, results: Results, key: Key, s': Sys)
    requires s.mode.Active? && s'.mode.Active? && s.mode.phase.Dispatched? && key in NodeKeys(plan)
    requires results.Keys == s.mode.phase.inputs.Keys
  {
    var run, run' := s.mode.run, s'.mode.run;
    && key in s.store.rows && key in s'.store.rows
    && if key in results then
         && TriedAsAllowed(cfg.tries(NodeOf(plan, key).agentId), s.store.rows[key].attempts, results[key])
         && RecordedAs(s.store.rows[key], results[key], s.mode.phase.inputs[key].upstream, s'.store.rows[key])
         && key in run'.outputs && run'.outputs[key] == results[key][|results[key]| - 1]
         && UsedAttempts(run', key) == s'.store.rows[key].attempts
       else
         && s'.store.rows[key] == s.store.rows[key]
         && (key in run'.outputs <==> key in run.outputs)
         && (key in run.outputs ==> run'.outputs[key] == run.outputs[key])
  }

  lemma MemoryGains(run: Run, batch: seq<Key>, results: Results)
    ensures var run' := RecordedRun(run, batch, results);
      forall k ::
        if k in results && results[k] != [] then
          k in run'.outputs && run'.outputs[k] == results[k][|results[k]| - 1]
        else
          && (k in run'.outputs <==> k in run.outputs)
          && (k in run.outputs ==> run'.outputs[k] == run.outputs[k])
  {
    hide BatchCost;
  }

  lemma NodeIsRecorded(plan: Plan, cfg: Config, s: Sys, results: Results, key: Key)
    requires Sound(plan, cfg, s) && Enabled(plan, cfg, s, Record(results)) && key in NodeKeys(plan)
    requires Sound(plan, cfg, RecordStep(s, results))
    ensures NodeRecorded(plan, cfg, s, results, key, RecordStep(s, results))
  {
    hide Sound, RecordedRows, BatchCost, RecordingFits, RecordedAs, NodeOf, TriedAsAllowed, StoreKept, SameRecord;
    hide RecordedRun, UsedAttempts;
    MemoryGains(s.mode.run, s.mode.phase.batch, results);
    SoundFacts(plan, cfg, s);
    KeysAgree(plan, cfg, s);
    RecordingFacts(plan, cfg, s, results);
    OthersUntouched(s.store.rows, s.mode.phase.inputs, results);
    SoundFacts(plan, cfg, RecordStep(s, results));
    if key in results {
      RecordedAsSaid(plan, s.store.rows, s.mode.phase.inputs, results, key);
      AllowedAsTried(cfg.tries(NodeOf(plan, key).agentId), s.store.rows[key].attempts, results[key]);
    }
  }

  /** Over all histories: recording a batch commits, for each of its nodes, the attempts that its policy allows,
      with their numbers, outcomes and costs, and the last one's result; every other row is as it was. Memory
      gains the last attempts, and what remains of the budget is what the new total leaves. */
  lemma RecordExactly(plan: Plan, cfg: Config, events: seq<Event>, results: Results, key: Key)
    requires Enabled(plan, cfg, History(plan, cfg, events), Record(results)) && key in NodeKeys(plan)
    ensures var s, s' := History(plan, cfg, events), History(plan, cfg, events + [Record(results)]);
      && results.Keys == s.mode.phase.inputs.Keys
      && s'.durable == s'.store && s'.mode.Active? && s'.mode.remaining == Left(cfg.budget, s'.store.cost)
      && s'.mode.run.totalCost - s.mode.run.totalCost == s'.store.cost - s.store.cost
      && s'.mode.run.skipped == s.mode.run.skipped
      && s'.mode.run.pending == s.mode.run.pending && s'.mode.run.repairs == s.mode.run.repairs
      && NodeRecorded(plan, cfg, s, results, key, s')
  {
    hide Sound, Step, RecordedRows, BatchCost, NodeRecorded, StoreKept, SameRecord, UsedAttempts;
    var s := History(plan, cfg, events);
    HistorySound(plan, cfg, events);
    HistorySound(plan, cfg, events + [Record(results)]);
    NextStep(plan, cfg, events, Record(results));
    RecordIsRecording(plan, cfg, s, results);
    SoundFacts(plan, cfg, RecordStep(s, results));
    NodeIsRecorded(plan, cfg, s, results, key);
  }

  lemma RecordIsRecording(plan: Plan, cfg: Config, s: Sys, results: Results)
    requires Enabled(plan, cfg, s, Record(results))
    ensures Step(plan, cfg, s, Record(results)) == RecordStep(s, results)
  {
  }

  lemma OthersUntouched(rows: Rows, inputs: map<Key, AgentInput>, results: Results)
    ensures var rows' := RecordedRows(rows, inputs, results);
      rows'.Keys == rows.Keys && forall k :: k in rows && k !in results ==> rows'[k] == rows[k]
  {
  }

  lemma AllowedAsTried(tries: Tries, before: nat, outs: seq<Output>)
    requires AttemptsAllowed(tries, before, outs)
    ensures TriedAsAllowed(tries, before, outs)
  {
  }

  // ---- sending a verdict back ----------------------------------------------------------------------------------

  /** The node gave a result, and reading its rule's condition on it raises. */
  predicate VerdictRaises(run: Run, n: Node) {
    && n.feedback.Some? && HasResult(run, n.key)
    && Evaluate(UNICODE, n.feedback.value.condition, run.outputs[n.key].payload).Raises?
  }

  /** The node gave a result on which its rule's condition holds, and its target has repairs left. */
  predicate Rejected(cfg: Config, run: Run, n: Node) {
    && n.feedback.Some? && HasResult(run, n.key)
    && Evaluate(UNICODE, n.feedback.value.condition, run.outputs[n.key].payload) == Answer(true)
    && (n.feedback.value.target in run.repairs ==> run.repairs[n.feedback.value.target] < cfg.cycles)
    && cfg.cycles > 0
  }

  lemma StopsSpelledOut(cfg: Config, run: Run, n: Node)
    ensures Stops(cfg, run, n) <==> VerdictRaises(run, n) || Rejected(cfg, run, n)
    ensures !VerdictRaises(run, n) && Rejected(cfg, run, n) ==>
      HasVerdict(run, n) && !Throws(n.feedback.value.condition, run.outputs[n.key].payload)
    ensures VerdictRaises(run, n) ==>
      HasVerdict(run, n) && Throws(n.feedback.value.condition, run.outputs[n.key].payload)
  {
    hide Evaluate;
  }

  /** The first node whose verdict raises or rejects. */
  ghost predicate Speaks(plan: Plan, cfg: Config, run: Run, at: nat) {
    && at < |plan.nodes| && (VerdictRaises(run, plan.nodes[at]) || Rejected(cfg, run, plan.nodes[at]))
    && forall i :: 0 <= i < at ==> !VerdictRaises(run, plan.nodes[i]) && !Rejected(cfg, run, plan.nodes[i])
  }

  /** What sending back the verdict of `giver` leaves: its target and everything below it is reopened and
      forgotten, the text waits for the target, and one more repair of the target is counted. */
  ghost predicate SentBackAs(plan: Plan, cfg: Config, s: Sys, giver: Node, s': Sys)
    requires s.mode.Active? && giver.feedback.Some? && giver.key in s.mode.run.outputs
  {
    var run, rule := s.mode.run, giver.feedback.value;
    var spent := if rule.target in run.repairs then run.repairs[rule.target] else 0;
    && s'.durable == s'.store && s'.store == s.store.(rows := s'.store.rows)
    && s'.store.rows.Keys == s.store.rows.Keys
    && (forall k :: k in s.store.rows ==>
          if AtOrBelow(plan, rule.target, k) then
            s'.store.rows[k] == s.store.rows[k].(status := Waiting, payload := JObj(map[]), skipReason := None,
                                                 basis := [], byHuman := false)
          else s'.store.rows[k] == s.store.rows[k])
    && s'.mode.Active? && s'.mode.phase.Head? && s'.mode.remaining == s.mode.remaining
    && (forall k :: k in s'.mode.run.outputs <==> k in run.outputs && !AtOrBelow(plan, rule.target, k))
    && (forall k :: k in s'.mode.run.outputs && k in run.outputs ==> s'.mode.run.outputs[k] == run.outputs[k])
    && (forall k :: k in s'.mode.run.skipped <==> k in run.skipped && !AtOrBelow(plan, rule.target, k))
    && (forall k :: k in s'.mode.run.skipped && k in run.skipped ==> s'.mode.run.skipped[k] == run.skipped[k])
    && s'.mode.run.attempts == run.attempts && s'.mode.run.totalCost == run.totalCost
    && s'.mode.run.repairs == run.repairs[rule.target := spent + 1]
    && s'.mode.run.pending == run.pending[rule.target := FeedbackText(cfg, rule, run.outputs[giver.key].payload)]
  }

  lemma SentAsSaid(plan: Plan, cfg: Config, s: Sys, giver: Node)
    requires s.mode.Active? && FirstFiring(cfg, s.mode.run, plan.nodes) == Some(giver)
    requires HasVerdict(s.mode.run, giver) && !RoutingThrows(s.mode.run, s.store.rows, giver)
    ensures SentBackAs(plan, cfg, s, giver, RouteStep(plan, cfg, s))
  {
    hide FirstFiring, FeedbackText, ReopenedRows, AtOrBelow, Affected, Throws, DetailOf;
    var target := giver.feedback.value.target;
    ReopenedAsSaid(plan, s.store.rows, target, ReopenedRows(s.store.rows, Affected(plan, target)));
    forall k
      ensures k in Affected(plan, target) <==> AtOrBelow(plan, target, k)
    {
      AffectedIsBelow(plan, target, k);
    }
  }

  /** Over all histories: after a batch that succeeded, the first verdict in plan order that raises or rejects is
      acted on. If its condition or its detail raises, or its target is unknown, the run ends at the last
      commit; otherwise it is sent back. If there is none, the run just goes on. */
  lemma RouteExactly(plan: Plan, cfg: Config, events: seq<Event>) returns (at: nat)
    requires var s := History(plan, cfg, events); s.mode.Active? && s.mode.phase == Recorded(false)
    ensures var s, s' := History(plan, cfg, events), History(plan, cfg, events + [Route]);
      var run := s.mode.run;
      if at < |plan.nodes| then
        && Speaks(plan, cfg, run, at)
        && var giver := plan.nodes[at];
           var payload := run.outputs[giver.key].payload;
           if || VerdictRaises(run, giver) || giver.feedback.value.target !in s.store.rows
              || DetailOf(giver.feedback.value, payload).LookupRaises?
           then s' == Sys(s.durable, s.durable, Idle)
           else SentBackAs(plan, cfg, s, giver, s')
      else
        && (forall n :: n in plan.nodes ==> !VerdictRaises(run, n) && !Rejected(cfg, run, n))
        && s' == s.(mode := s.mode.(phase := Head))
  {
    hide FirstFiring, Throws, RouteStep, SentBackAs, VerdictRaises, Rejected, DetailOf, Stops;
    var s := History(plan, cfg, events);
    var run := s.mode.run;
    NextStep(plan, cfg, events, Route);
    forall n: Node
      ensures Stops(cfg, run, n) <==> VerdictRaises(run, n) || Rejected(cfg, run, n)
    {
      StopsSpelledOut(cfg, run, n);
    }
    var firing := FirstFiring(cfg, run, plan.nodes);
    at := |plan.nodes|;
    RouteCases(plan, cfg, s);
    if firing.Some? {
      at := FirstFiringIsFirst(cfg, run, plan.nodes);
      StopsSpelledOut(cfg, run, plan.nodes[at]);
      RaisesHere(run, s.store.rows, plan.nodes[at]);
      if !RoutingThrows(run, s.store.rows, plan.nodes[at]) {
        SentAsSaid(plan, cfg, s, plan.nodes[at]);
      }
    }
  }

  lemma RaisesHere(run: Run, rows: Rows, n: Node)
    requires HasVerdict(run, n)
    ensures RoutingThrows(run, rows, n) <==>
      || VerdictRaises(run, n) || n.feedback.value.target !in rows
      || DetailOf(n.feedback.value, run.outputs[n.key].payload).LookupRaises?
  {
    hide Evaluate, DetailOf;
  }

  lemma RouteCases(plan: Plan, cfg: Config, s: Sys)
    requires s.mode.Active?
    ensures var firing := FirstFiring(cfg, s.mode.run, plan.nodes);
      && (firing.None? ==> RouteStep(plan, cfg, s) == s.(mode := s.mode.(phase := Head)))
      && (firing.Some? && RoutingThrows(s.mode.run, s.store.rows, firing.value) ==>
            RouteStep(plan, cfg, s) == Sys(s.durable, s.durable, Idle))
  {
    hide FirstFiring, RoutingThrows, FeedbackText, ReopenedRows, Affected;
  }

  // ---- the verdicts of planned nodes -----------------------------------------------------------------------------

  /** A testing or review node of the plan said false, and its target has repairs left. */
  ghost predicate SaidFalse(cfg: Config, run: Run, draft: Draft, n: Node) {
    && n.feedback.Some? && HasResult(run, n.key)
    && FieldIsFalse(run.outputs[n.key].payload, VerdictField(draft.caps))
    && Repairs(run, n.feedback.value.target) < cfg.cycles
  }

  ghost predicate Planned(plan: Plan, drafts: seq<Draft>, requireApproval: bool) {
    && ValidPlan(plan) && |plan.nodes| == |drafts|
    && forall i :: 0 <= i < |drafts| ==> FinishedAs(plan, drafts[i], drafts, requireApproval, plan.nodes[i])
  }

  lemma PlannedVerdict(plan: Plan, cfg: Config, drafts: seq<Draft>, requireApproval: bool, run: Run, i: nat)
    requires Planned(plan, drafts, requireApproval) && i < |drafts|
    requires forall k :: k in run.outputs ==> run.outputs[k].payload.JObj?
    ensures var n := plan.nodes[i];
      && !VerdictRaises(run, n) && (Rejected(cfg, run, n) <==> SaidFalse(cfg, run, drafts[i], n))
      && (Rejected(cfg, run, n) ==>
            && n.feedback.value.target in NodeKeys(plan)
            && !DetailOf(n.feedback.value, run.outputs[n.key].payload).LookupRaises?)
  {
    hide ValidPlan, FinishedAs, DetailOf, Evaluate, FieldIsFalse, VerdictField;
    var n := plan.nodes[i];
    StopsSpelledOut(cfg, run, n);
    if n.feedback.Some? && HasResult(run, n.key) {
      PlannedVerdictFires(cfg, run, plan, drafts[i], drafts, requireApproval, n);
      TargetIsKnown(plan, drafts[i], drafts, requireApproval, n);
    }
  }

  lemma TargetIsKnown(plan: Plan, draft: Draft, drafts: seq<Draft>, requireApproval: bool, n: Node)
    requires ValidPlan(plan) && FinishedAs(plan, draft, drafts, requireApproval, n) && n.feedback.Some?
    ensures n.feedback.value.target in NodeKeys(plan)
  {
    hide Acyclic, SentBack;
    var e :| e in plan.edges && e.target == n.key && e.source == n.feedback.value.target;
    assert KnownEdge(plan, e);
  }

  /** Over all histories of a planned graph: after a batch that succeeded, the first testing or review node that
      said false and has repairs left is sent back, with everything below its code node reopened; if there is
      none, nothing is. */
  lemma PlannedVerdictsAreSentBack(
    plan: Plan, cfg: Config, drafts: seq<Draft>, requireApproval: bool, events: seq<Event>) returns (at: nat)
    requires Planned(plan, drafts, requireApproval)
    requires var s := History(plan, cfg, events); s.mode.Active? && s.mode.phase == Recorded(false)
    requires forall k :: k in History(plan, cfg, events).mode.run.outputs ==>
      History(plan, cfg, events).mode.run.outputs[k].payload.JObj?
    ensures var s, s' := History(plan, cfg, events), History(plan, cfg, events + [Route]);
      if at < |drafts| then
        && SaidFalse(cfg, s.mode.run, drafts[at], plan.nodes[at])
        && (forall i :: 0 <= i < at ==> !SaidFalse(cfg, s.mode.run, drafts[i], plan.nodes[i]))
        && SentBackAs(plan, cfg, s, plan.nodes[at], s')
      else
        && (forall i :: 0 <= i < |drafts| ==> !SaidFalse(cfg, s.mode.run, drafts[i], plan.nodes[i]))
        && s' == s.(mode := s.mode.(phase := Head))
  {
    hide Planned, SaidFalse, SentBackAs, VerdictRaises, Rejected, DetailOf, History;
    assert |plan.nodes| == |drafts| by {
      PlannedLength(plan, drafts, requireApproval);
    }
    HistorySound(plan, cfg, events);
    at := RouteExactly(plan, cfg, events);
    forall i | 0 <= i < |drafts|
      ensures var run, n := History(plan, cfg, events).mode.run, plan.nodes[i];
        && !VerdictRaises(run, n) && (Rejected(cfg, run, n) <==> SaidFalse(cfg, run, drafts[i], n))
        && (Rejected(cfg, run, n) ==>
              && n.feedback.Some? && n.key in run.outputs && n.feedback.value.target in NodeKeys(plan)
              && !DetailOf(n.feedback.value, run.outputs[n.key].payload).LookupRaises?)
    {
      if Rejected(cfg, History(plan, cfg, events).mode.run, plan.nodes[i]) {
        RejectedHasVerdict(cfg, History(plan, cfg, events).mode.run, plan.nodes[i]);
      }
      PlannedVerdict(plan, cfg, drafts, requireApproval, History(plan, cfg, events).mode.run, i);
    }
  }

  lemma PlannedLength(plan: Plan, drafts: seq<Draft>, requireApproval: bool)
    requires Planned(plan, drafts, requireApproval)
    ensures |plan.nodes| == |drafts|
  {
  }

  lemma RejectedHasVerdict(cfg: Config, run: Run, n: Node)
    requires Rejected(cfg, run, n)
    ensures n.feedback.Some? && n.key in run.outputs
  {
  }
}
