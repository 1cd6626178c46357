/** The engine's methods (`backend/app/workflows/engine.py`), each against the machine step it makes. */
module Engine {
  import opened Collections
  import opened Graphs
  import opened Conditions
  import opened Plans
  import opened Protocol
  import opened Invariants
  import opened Histories
  import opened Soundness
  import opened Termination
  import opened Budgets
  import opened Rulings
  import opened Repository
  import opened Executor

  /** What the engine cannot see coming: the offers each (node, attempt) will meet, and when another
      session asks for cancellation. */
  datatype World = World(offers: (Key, nat) -> seq<Offer>, cancels: nat -> bool)

  ghost predicate HonestWorld(world: World) {
    forall k: Key, n: nat, o :: o in world.offers(k, n) && o.reply.Text? ==> o.reply.cost <= o.estimate
  }

  lemma {:induction false} ComplaintsLast(incoming: seq<Edge>, e: Edge, v: View)
    ensures Complaints(incoming + [e], v)
         == Complaints(incoming, v) + (if Complaint(e, v).Some? then [Complaint(e, v).value] else [])
  {
    if incoming == [] {
      assert incoming + [e] == [e];
    } else {
      assert (incoming + [e])[1..] == incoming[1..] + [e];
      ComplaintsLast(incoming[1..], e, v);
    }
  }

  lemma {:induction false} ContributionsLast(edges: seq<Edge>, e: Edge, v: View, key: Key)
    ensures Contributions(edges + [e], v, key) == Contributions(edges, v, key) + Contributions([e], v, key)
  {
    if edges == [] {
      assert edges + [e] == [e];
    } else {
      assert (edges + [e])[1..] == edges[1..] + [e];
      ContributionsLast(edges[1..], e, v, key);
    }
  }

  lemma {:induction false} AmongDistinct(keys: seq<Key>, chosen: set<Key>)
    requires DistinctSeq(keys)
    ensures DistinctSeq(Among(keys, chosen))
  {
    if keys != [] {
      var rest, some := Among(keys[1..], chosen), Among(keys, chosen);
      assert forall j :: 0 <= j < |keys| - 1 ==> keys[1..][j] == keys[j + 1];
      AmongDistinct(keys[1..], chosen);
      forall j | 0 <= j < |rest|
        ensures rest[j] != keys[0]
      {
        assert rest[j] in keys[1..];
      }
      assert some == rest || some == [keys[0]] + rest;
    }
  }

  function OpenReady(plan: Plan, v: View): set<Key> {
    set k | k in NodeKeys(plan) && !Resolved(v, k) && DependenciesResolved(plan, v, k)
  }

  /** `_ready_nodes`. */
  method ReadyNodes(plan: Plan, run: WorkflowRun) returns (ready: seq<Key>)
    requires AllSucceeded(run.State())
    ensures ready == Among(KeysOf(plan.nodes), OpenReady(plan, RunView(run.State())))
  {
    ghost var v := RunView(run.State());
    ghost var chosen := OpenReady(plan, v);
    ready := [];
    for i := 0 to |plan.nodes|
      invariant ready == Among(KeysOf(plan.nodes)[..i], chosen)
    {
      var key := plan.nodes[i].key;
      assert KeysOf(plan.nodes)[..i + 1] == KeysOf(plan.nodes)[..i] + [key];
      AmongLast(KeysOf(plan.nodes)[..i], key, chosen);
      assert key in NodeKeys(plan);
      if key !in run.outputs && key !in run.skipped {
        var waiting := false;
        for j := 0 to |plan.edges|
          invariant !waiting <==> forall e :: e in plan.edges[..j] && e.target == key ==> Resolved(v, e.source)
        {
          var e := plan.edges[j];
          if e.target == key && e.source !in run.outputs && e.source !in run.skipped {
            waiting := true;
          }
        }
        if !waiting {
          ready := ready + [key];
        }
      }
    }
    assert KeysOf(plan.nodes)[..|plan.nodes|] == KeysOf(plan.nodes);
  }

  /** `_skip_reason`, which raises if reading one of the node's conditions does. */
  method ComputeSkipReason(plan: Plan, node: Node, run: WorkflowRun) returns (raised: bool, reason: Option<string>)
    ensures raised <==> VerdictThrows(plan, RunView(run.State()), node.key)
    ensures !raised ==> reason == SkipReason(plan, RunView(run.State()), node)
  {
    hide Evaluate, Describe, Joined, Incoming, Complaints;
    ghost var v := RunView(run.State());
    var incoming := Incoming(plan.edges, node.key);
    if incoming == [] {
      return false, None;
    }
    assert incoming[..0] == [];
    var unsatisfied: seq<string> := [];
    var satisfied := 0;
    for i := 0 to |incoming|
      invariant unsatisfied == Complaints(incoming[..i], v)
      invariant satisfied == i - |unsatisfied|
      invariant forall e :: e in incoming[..i] ==> !EdgeThrows(e, v)
    {
      var e := incoming[i];
      assert incoming[..i + 1] == incoming[..i] + [e];
      ComplaintsLast(incoming[..i], e, v);
      if e.source in run.skipped {
        unsatisfied := unsatisfied + ["'" + e.source + "' was skipped"];
      } else if e.source !in run.outputs || run.outputs[e.source].status != Succeeded {
        unsatisfied := unsatisfied + ["'" + e.source + "' produced no result"];
      } else if e.condition.Some? {
        var answer := Evaluate(UNICODE, e.condition.value, run.outputs[e.source].payload);
        if answer.Raises? {
          assert e in plan.edges && EdgeThrows(e, v);
          return true, None;
        }
        if answer.holds {
          satisfied := satisfied + 1;
        } else {
          unsatisfied := unsatisfied + [Describe(e.condition.value, e.source)];
        }
      } else {
        satisfied := satisfied + 1;
      }
    }
    assert incoming[..|incoming|] == incoming;
    if node.joinPolicy == Any {
      reason := if satisfied > 0 then None else Some(Joined(unsatisfied));
    } else {
      reason := if unsatisfied == [] then None else Some(Joined(unsatisfied));
    }
    raised := false;
  }

  /** `_upstream_for`. */
  method ComputeUpstream(plan: Plan, key: Key, run: WorkflowRun) returns (upstream: seq<Upstream>)
    ensures upstream == UpstreamFor(plan, RunView(run.State()), key)
  {
    ghost var v := RunView(run.State());
    upstream := [];
    for i := 0 to |plan.edges|
      invariant upstream == Contributions(plan.edges[..i], v, key)
    {
      var e := plan.edges[i];
      assert plan.edges[..i + 1] == plan.edges[..i] + [e];
      ContributionsLast(plan.edges[..i], e, v, key);
      if e.target == key && e.passPayload {
        if e.source in run.outputs && run.outputs[e.source].status == Succeeded {
          upstream := upstream + [Upstream(e.source, run.outputs[e.source].payload)];
        }
      }
    }
    assert plan.edges[..|plan.edges|] == plan.edges;
  }

  /** The ruling made so far on the keys in `done`. */
  ghost predicate RuledSoFar(
    plan: Plan, v: View, rows: Rows, run: WorkflowRun, repo: WorkflowRepository, done: set<Key>)
    reads run, repo
  {
    && repo.rows == RowsRuled(plan, v, rows, done)
    && ResultsIn(run.outputs) == v.results
    && run.skipped == v.skips + SkipsRuled(plan, v, rows, done)
  }

  function SkipKeys(plan: Plan, v: View, rows: Rows): set<Key> {
    ReadyKeys(plan, v, rows) - RunnableKeys(plan, v, rows)
  }

  /** `_resolve_skips`: verdicts are read while skips are being written, and still come out, or raise, as
      if all had been read first. */
  method ResolveSkips(
    plan: Plan, run: WorkflowRun, repo: WorkflowRepository, ready: seq<Key>, ghost v: View, ghost rows: Rows)
    returns (raised: bool, runnable: seq<Key>, ghost done: set<Key>)
    requires Keyed(plan, rows) && (forall k :: k in ready ==> k in ReadyKeys(plan, v, rows))
    requires repo.rows == rows && RunView(run.State()) == v
    modifies run`skipped, repo`rows
    ensures raised <==> exists k :: k in ready && VerdictThrows(plan, v, k)
    ensures !raised ==> runnable == Among(ready, RunnableKeys(plan, v, rows))
    ensures !raised ==> done == KeySet(ready) * SkipKeys(plan, v, rows)
    ensures !raised ==> RuledSoFar(plan, v, rows, run, repo, done)
  {
    hide RuleFor, NodeKeys, RowsRuled, SkipsRuled, SkipReason, SkipKeys, RunnableKeys, ReadyKeys, ResultsIn;
    hide NodeOf, Among, UpstreamFor, KeySet;
    hide VerdictThrows;
    raised, runnable, done := false, [], {};
    NoneRuled(plan, v, rows);
    NoneAmong(RunnableKeys(plan, v, rows));
    assert ready[..0] == [];
    for i := 0 to |ready|
      invariant forall k :: k in ready[..i] ==> !VerdictThrows(plan, v, k)
      invariant runnable == Among(ready[..i], RunnableKeys(plan, v, rows))
      invariant done == KeySet(ready[..i]) * SkipKeys(plan, v, rows)
      invariant RuledSoFar(plan, v, rows, run, repo, done)
    {
      var key := ready[i];
      assert ready[..i + 1] == ready[..i] + [key];
      AmongLast(ready[..i], key, RunnableKeys(plan, v, rows));
      KeySetNext(ready[..i], key);
      ReadyFacts(plan, v, rows, key);
      VerdictStands(plan, v, rows, done, NodeOf(plan, key));
      var thrown, reason := ComputeSkipReason(plan, NodeOf(plan, key), run);
      if thrown {
        return true, [], {};
      }
      if reason.None? {
        runnable := runnable + [key];
      } else {
        RuleOneMore(plan, v, rows, done, key);
        run.skipped := run.skipped[key := reason.value];
        repo.SkipNode(key, reason.value, false);
        done := done + {key};
      }
    }
    assert ready[..|ready|] == ready;
  }

  lemma ReadyFacts(plan: Plan, v: View, rows: Rows, key: Key)
    requires Keyed(plan, rows) && key in ReadyKeys(plan, v, rows)
    ensures key in NodeKeys(plan) && key in rows && DependenciesResolved(plan, v, key) && NodeOf(plan, key).key == key
    ensures var reason := SkipReason(plan, v, NodeOf(plan, key));
      && (reason.Some? <==> key in SkipKeys(plan, v, rows))
      && (reason.None? <==> key in RunnableKeys(plan, v, rows))
      && (reason.Some? ==> RuleFor(plan, v, rows, key) == SkipIt(reason.value))
  {
  }

  /** `_partition_approval`. */
  method PartitionApproval(
    plan: Plan, run: WorkflowRun, repo: WorkflowRepository, runnable: seq<Key>,
    ghost v: View, ghost rows: Rows, ghost before: set<Key>)
    returns (gated: seq<Key>, allowed: seq<Key>, ghost done: set<Key>)
    requires Keyed(plan, rows) && (forall k :: k in runnable ==> k in RunnableKeys(plan, v, rows))
    requires RuledSoFar(plan, v, rows, run, repo, before)
    modifies run`skipped, repo`rows
    ensures gated == Among(runnable, GateKeys(plan, v, rows))
    ensures allowed == Among(runnable, GoKeys(plan, v, rows))
    ensures done == before + (KeySet(runnable) - GoKeys(plan, v, rows))
    ensures RuledSoFar(plan, v, rows, run, repo, done)
  {
    hide RuleFor, NodeKeys, RowsRuled, SkipsRuled, SkipReason, RunnableKeys, GateKeys, GoKeys, ResultsIn;
    hide NodeOf, Among, Keyed, KeySet;
    gated, allowed, done := [], [], before;
    NoneAmong(GateKeys(plan, v, rows));
    NoneAmong(GoKeys(plan, v, rows));
    assert runnable[..0] == [];
    for i := 0 to |runnable|
      invariant gated == Among(runnable[..i], GateKeys(plan, v, rows))
      invariant allowed == Among(runnable[..i], GoKeys(plan, v, rows))
      invariant done == before + (KeySet(runnable[..i]) - GoKeys(plan, v, rows))
      invariant RuledSoFar(plan, v, rows, run, repo, done)
    {
      var key := runnable[i];
      assert runnable[..i + 1] == runnable[..i] + [key];
      AmongLast(runnable[..i], key, GateKeys(plan, v, rows));
      AmongLast(runnable[..i], key, GoKeys(plan, v, rows));
      KeySetNext(runnable[..i], key);
      RunnableFacts(plan, v, rows, key);
      RuleOneMore(plan, v, rows, done, key);
      if !NodeOf(plan, key).requiresApproval {
        allowed := allowed + [key];
      } else {
        var decision := repo.rows[key].approval;
        if decision.None? {
          repo.SetNodeStatus(key, AwaitingApproval);
          gated := gated + [key];
          done := done + {key};
        } else if decision.value.approved {
          allowed := allowed + [key];
        } else {
          run.skipped := run.skipped[key := decision.value.reason];
          repo.SkipNode(key, decision.value.reason, true);
          done := done + {key};
        }
      }
    }
    assert runnable[..|runnable|] == runnable;
  }

  lemma RunnableFacts(plan: Plan, v: View, rows: Rows, key: Key)
    requires Keyed(plan, rows) && key in RunnableKeys(plan, v, rows)
    ensures key in NodeKeys(plan) && key in rows
    ensures var node, approval := NodeOf(plan, key), rows[key].approval;
      var rule := RuleFor(plan, v, rows, key);
      && (key in GoKeys(plan, v, rows) <==> !node.requiresApproval || (approval.Some? && approval.value.approved))
      && (key in GateKeys(plan, v, rows) <==> node.requiresApproval && approval.None?)
      && (key in GateKeys(plan, v, rows) ==> rule == Gate)
      && (node.requiresApproval && approval.Some? && !approval.value.approved ==> rule == Refuse(approval.value.reason))
  {
  }

  /** The first half of `_execute_batch`: mark the nodes running, read their inputs, take their feedback. */
  method Prepare(
    plan: Plan, run: WorkflowRun, repo: WorkflowRepository, batch: seq<Key>,
    ghost v: View, ghost rows: Rows, ghost before: set<Key>)
    returns (inputs: map<Key, AgentInput>)
    requires Keyed(plan, rows) && (forall k :: k in batch ==> k in GoKeys(plan, v, rows)) && DistinctSeq(batch)
    requires RuledSoFar(plan, v, rows, run, repo, before)
    modifies run`pending, repo`rows
    ensures inputs == InputsFor(plan, old(run.State()), batch)
    ensures run.pending == old(run.pending) - KeySet(batch)
    ensures RuledSoFar(plan, v, rows, run, repo, before + KeySet(batch))
  {
    hide RuleFor, NodeKeys, RowsRuled, SkipsRuled, SkipReason, UpstreamFor, GoKeys, ResultsIn, NodeOf;
    hide InputsFor, Keyed;
    ghost var taken: set<Key> := {};
    inputs := map[];
    assert before + taken == before;
    assert InputsFor(plan, run.State(), batch[..0]) == map[] by {
      NoInputs(plan, run.State());
    }
    for i := 0 to |batch|
      invariant taken == KeySet(batch[..i])
      invariant inputs == InputsFor(plan, old(run.State()), batch[..i])
      invariant run.pending == old(run.pending) - taken
      invariant RuledSoFar(plan, v, rows, run, repo, before + taken)
    {
      var key := batch[i];
      assert batch[..i + 1] == batch[..i] + [key];
      assert key !in taken;
      InputsOneMore(plan, old(run.State()), batch[..i], key);
      GoFacts(plan, v, rows, key);
      RuleOneMore(plan, v, rows, before + taken, key);
      repo.SetNodeStatus(key, Running);
      var upstream := ComputeUpstream(plan, key, run);
      inputs := inputs[key := AgentInput(upstream, PendingFor(run.pending, key))];
      run.pending := run.pending - {key};
      assert before + taken + {key} == before + (taken + {key});
      taken := taken + {key};
    }
    assert batch[..|batch|] == batch;
  }

  lemma NoInputs(plan: Plan, run: Run)
    ensures InputsFor(plan, run, []) == map[]
  {
  }

  lemma GoFacts(plan: Plan, v: View, rows: Rows, key: Key)
    requires Keyed(plan, rows) && key in GoKeys(plan, v, rows)
    ensures key in NodeKeys(plan) && key in rows && RuleFor(plan, v, rows, key) == Go
  {
  }

  // ---- attempts ----------------------------------------------------------------------------

  ghost predicate Affordable(outs: seq<Output>, remaining: Option<Usd>) {
    remaining.Some? ==> forall i :: 0 <= i < |outs| ==> outs[i].cost <= remaining.value
  }

  /** The executor's answer to one attempt within the limits: that of the offer chosen, if there is one. */
  ghost predicate Answers(world: World, key: Key, limits: Limits, out: Output) {
    var offers := world.offers(key, out.attempt);
    if offers == [] then out.status == Errored && !out.retryable && out.cost == 0.0
    else
      exists i: nat ::
        ChosenAt(limits, offers, out.attempt, i) && out == Attempt(limits, offers[i], out.attempt).output
  }

  method AttemptOnce(world: World, key: Key, limits: Limits, attempt: nat) returns (out: Output)
    ensures out.attempt == attempt && Answers(world, key, limits, out)
    ensures HonestWorld(world) && limits.remaining.Some? ==> out.cost <= limits.remaining.value
  {
    hide Attempt, StopsAt, IsTried;
    var offers := world.offers(key, attempt);
    out := Executor.Execute(limits, offers, attempt);
    if HonestWorld(world) && limits.remaining.Some? && offers != [] {
      ghost var i: nat :| ChosenAt(limits, offers, attempt, i) && out == Attempt(limits, offers[i], attempt).output;
      HonestEstimatesStayWithin(limits, offers, attempt, i);
    }
  }

  /** `_attempt_node`. */
  method AttemptNode(world: World, key: Key, tries: Tries, limits: Limits, used: nat) returns (outs: seq<Output>)
    ensures AttemptsAllowed(tries, used, outs)
    ensures forall out :: out in outs ==> Answers(world, key, limits, out)
    ensures HonestWorld(world) ==> Affordable(outs, limits.remaining)
  {
    hide HonestWorld, Answers;
    outs := [];
    var index := 1;
    while index <= tries
      invariant 1 <= index <= tries + 1 && |outs| == index - 1
      invariant forall i :: 0 <= i < |outs| ==> outs[i].attempt == used + 1 + i
      invariant forall i :: 0 <= i < |outs| ==> outs[i].status != Succeeded && outs[i].retryable
      invariant forall out :: out in outs ==> Answers(world, key, limits, out)
      invariant HonestWorld(world) ==> Affordable(outs, limits.remaining)
    {
      var out := AttemptOnce(world, key, limits, used + index);
      outs := outs + [out];
      if out.status == Succeeded || !out.retryable {
        return;
      }
      index := index + 1;
    }
  }

  /** The second half of `_execute_batch`: every attempt is given the budget that remained before the
      batch. */
  method ExecuteBatch(cfg: Config, world: World, plan: Plan, run: WorkflowRun, batch: seq<Key>, remaining: Option<Usd>)
    returns (results: Results)
    requires forall k :: k in batch ==> k in NodeKeys(plan)
    ensures results.Keys == KeySet(batch)
    ensures forall k :: k in batch ==>
      AttemptsAllowed(cfg.tries(NodeOf(plan, k).agentId), UsedAttempts(run.State(), k), results[k])
    ensures forall k, out :: k in batch && out in results[k] ==>
      Answers(world, k, Limits(cfg.ceiling(NodeOf(plan, k).agentId), remaining), out)
    ensures HonestWorld(world) ==> forall k :: k in results ==> Affordable(results[k], remaining)
  {
    hide NodeKeys, HonestWorld, AttemptsAllowed, Answers;
    results := map[];
    for i := 0 to |batch|
      invariant results.Keys == KeySet(batch[..i])
      invariant forall k :: k in batch[..i] ==>
        AttemptsAllowed(cfg.tries(NodeOf(plan, k).agentId), UsedAttempts(run.State(), k), results[k])
      invariant forall k, out :: k in batch[..i] && out in results[k] ==>
        Answers(world, k, Limits(cfg.ceiling(NodeOf(plan, k).agentId), remaining), out)
      invariant HonestWorld(world) ==> forall k :: k in results ==> Affordable(results[k], remaining)
    {
      var key := batch[i];
      assert batch[..i + 1] == batch[..i] + [key];
      var agent := NodeOf(plan, key).agentId;
      var outs := AttemptNode(world, key, cfg.tries(agent), Limits(cfg.ceiling(agent), remaining),
          UsedAttempts(run.State(), key));
      results := results[key := outs];
    }
    assert batch[..|batch|] == batch;
  }

  // ---- recording -----------------------------------------------------------------------------

  /** The body of the recording loop for one node. */
  method RecordNode(
    run: WorkflowRun, repo: WorkflowRepository, key: Key, outs: seq<Output>, input: AgentInput,
    remaining: Option<Usd>)
    returns (left: Option<Usd>)
    requires outs != [] && key in repo.rows
    modifies run`outputs, run`attempts, run`totalCost, repo`rows, repo`cost
    ensures left == Remaining(remaining, CostOf(outs))
    ensures Ledger(run.State(), repo.rows, repo.cost, left)
         == Enter(old(Ledger(run.State(), repo.rows, repo.cost, remaining)), key, outs, input.upstream)
  {
    hide RecordAll, RecordOne, RecordedRow, CostOf, Remaining, Enter;
    ghost var start := run.State();
    ghost var so := Ledger(start, repo.rows, repo.cost, remaining);
    var final := outs[|outs| - 1];
    NothingEntered(repo.rows[key], input.upstream, remaining);
    run.outputs := run.outputs[key := final];
    run.attempts := run.attempts[key := UsedAttempts(run.State(), key) + |outs|];
    left := remaining;
    ghost var row := repo.rows[key];
    for i := 0 to |outs|
      invariant run.outputs == old(run.outputs)[key := final]
      invariant run.attempts == old(run.attempts)[key := UsedAttempts(start, key) + |outs|]
      invariant run.totalCost == old(run.totalCost) + CostOf(outs[..i])
      invariant repo.cost == old(repo.cost) + CostOf(outs[..i])
      invariant left == Remaining(remaining, CostOf(outs[..i]))
      invariant repo.rows == old(repo.rows)[key := RecordAll(row, outs[..i], input.upstream)]
    {
      EnteredNext(row, outs, i, input.upstream, remaining);
      run.totalCost := run.totalCost + outs[i].cost;
      left := Remaining(left, outs[i].cost);
      repo.RecordExecution(key, outs[i], input.upstream);
    }
    assert outs[..|outs|] == outs;
    if final.status != Succeeded {
      repo.SetNodeStatus(key, Failed);
    }
    assert repo.rows == so.rows[key := RecordedRow(row, outs, input.upstream)] by {
      EnteredRow(row, outs, input.upstream);
    }
    AllEntered(so, key, outs, input.upstream);
  }

  lemma EnteredRow(row: Row, outs: seq<Output>, upstream: seq<Upstream>)
    requires outs != []
    ensures var row' := RecordAll(row, outs, upstream);
      RecordedRow(row, outs, upstream)
      == if outs[|outs| - 1].status == Succeeded then row' else row'.(status := Failed)
  {
    hide RecordAll;
  }

  lemma AllEntered(so: Ledger, key: Key, outs: seq<Output>, upstream: seq<Upstream>)
    requires key in so.rows && outs != []
    ensures Enter(so, key, outs, upstream)
         == Ledger(so.run.(outputs := so.run.outputs[key := outs[|outs| - 1]],
                           attempts := so.run.attempts[key := UsedAttempts(so.run, key) + |outs|],
                           totalCost := so.run.totalCost + CostOf(outs)),
                   so.rows[key := RecordedRow(so.rows[key], outs, upstream)],
                   so.cost + CostOf(outs), Remaining(so.left, CostOf(outs)))
  {
    hide RecordedRow, CostOf, Remaining, UsedAttempts;
  }

  lemma NothingEntered(row: Row, upstream: seq<Upstream>, remaining: Option<Usd>)
    ensures RecordAll(row, [], upstream) == row && CostOf([]) == 0.0
    ensures Remaining(remaining, 0.0) == remaining
  {
  }

  lemma EnteredNext(row: Row, outs: seq<Output>, i: nat, upstream: seq<Upstream>, remaining: Option<Usd>)
    requires i < |outs|
    ensures RecordAll(row, outs[..i + 1], upstream) == RecordOne(RecordAll(row, outs[..i], upstream), outs[i], upstream)
    ensures CostOf(outs[..i + 1]) == CostOf(outs[..i]) + outs[i].cost
    ensures Remaining(Remaining(remaining, CostOf(outs[..i])), outs[i].cost)
        == Remaining(remaining, CostOf(outs[..i + 1]))
  {
    hide RecordOne;
    assert outs[..i + 1][..i] == outs[..i];
  }

  /** The recording loop of `run`: node by node, it adds up to the machine's one step. */
  method RecordBatch(
    run: WorkflowRun, repo: WorkflowRepository, batch: seq<Key>, inputs: map<Key, AgentInput>, results: Results,
    remaining: Option<Usd>)
    returns (left: Option<Usd>, failed: bool)
    requires DistinctSeq(batch) && results.Keys == inputs.Keys == KeySet(batch) <= repo.rows.Keys
    requires forall k :: k in results ==> results[k] != []
    modifies run`outputs, run`attempts, run`totalCost, repo`rows, repo`cost
    ensures run.State() == RecordedRun(old(run.State()), batch, results)
    ensures repo.rows == RecordedRows(old(repo.rows), inputs, results)
    ensures repo.cost == old(repo.cost) + BatchCost(batch, results)
    ensures left == Remaining(remaining, BatchCost(batch, results))
    ensures failed == AnyFailure(results)
  {
    hide RecordedRow, CostOf, BatchCost, RecordedRows, RecordedRun, Remaining, LedgerAfter, FailedAmong;
    hide AnyFailure;
    hide Enter, Last, UsedAttempts;
    left, failed := remaining, false;
    ghost var start := Ledger(run.State(), repo.rows, repo.cost, remaining);
    NothingRecorded(start, inputs, results);
    for i := 0 to |batch|
      invariant Ledger(run.State(), repo.rows, repo.cost, left) == LedgerAfter(start, batch[..i], inputs, results)
      invariant failed == FailedAmong(batch[..i], results)
    {
      var key := batch[i];
      assert batch[..i + 1] == batch[..i] + [key];
      LedgerNext(start, batch[..i], key, inputs, results);
      FailedNext(batch[..i], key, results);
      left := RecordNode(run, repo, key, results[key], inputs[key], left);
      failed := failed || Last(results[key]).status != Succeeded;
    }
    assert batch[..|batch|] == batch;
    LedgerIsRecording(start, batch, inputs, results);
    AllFailures(batch, results);
  }

  lemma AllFailures(batch: seq<Key>, results: Results)
    requires results.Keys == KeySet(batch)
    ensures FailedAmong(batch, results) <==> AnyFailure(results)
  {
    FailedIsAny(batch, results);
  }

  // ---- feedback --------------------------------------------------------------------------------

  /** The reopening loop of `_route_feedback`. */
  method Reopen(run: WorkflowRun, repo: WorkflowRepository, keys: set<Key>)
    requires keys <= repo.rows.Keys
    modifies run`outputs, run`skipped, repo`rows
    ensures run.outputs == old(run.outputs) - keys && run.skipped == old(run.skipped) - keys
    ensures repo.rows == ReopenedRows(old(repo.rows), keys)
  {
    run.outputs := run.outputs - keys;
    run.skipped := run.skipped - keys;
    repo.ReopenNodes(keys);
  }

  /** `_route_feedback`. It raises if a condition or the rule's detail does, or if the target is not
      stored. */
  method RouteFeedback(cfg: Config, plan: Plan, run: WorkflowRun, repo: WorkflowRepository) returns (raised: bool)
    requires Keyed(plan, repo.rows) && forall e :: e in plan.edges ==> KnownEdge(plan, e)
    modifies run`outputs, run`skipped, run`repairs, run`pending, repo`rows, repo`durable
    ensures var before, rows := old(run.State()), old(repo.rows);
      var firing := FirstFiring(cfg, before, plan.nodes);
      && (firing.None? ==> !raised && run.State() == before && repo.rows == rows && repo.durable == old(repo.durable))
      && (firing.Some? ==>
            var rule := firing.value.feedback.value;
            && raised == RoutingThrows(before, rows, firing.value)
            && (!raised ==>
                  var text := FeedbackText(cfg, rule, before.outputs[firing.value.key].payload);
                  && run.State() == ReopenedRun(before, rule.target, text, Affected(plan, rule.target))
                  && repo.rows == ReopenedRows(rows, Affected(plan, rule.target))
                  && repo.durable == repo.Session()))
    ensures raised ==> repo.durable == old(repo.durable)
  {
    hide NodeKeys, KnownEdge, ReopenedRows, Descendants, Evaluate, FeedbackText, DetailOf;
    ghost var before := run.State();
    for i := 0 to |plan.nodes|
      invariant run.State() == before && repo.rows == old(repo.rows) && repo.durable == old(repo.durable)
      invariant FirstFiring(cfg, before, plan.nodes) == FirstFiring(cfg, before, plan.nodes[i..])
    {
      assert plan.nodes[i..][1..] == plan.nodes[i + 1..];
      var node := plan.nodes[i];
      if node.feedback.Some? && node.key in run.outputs && run.outputs[node.key].status == Succeeded {
        var rule, payload := node.feedback.value, run.outputs[node.key].payload;
        var answer := Evaluate(UNICODE, rule.condition, payload);
        if answer.Raises? {
          assert FirstFiring(cfg, before, plan.nodes) == Some(node);
          return true;
        }
        var spent := Repairs(run.State(), rule.target);
        if answer.holds && spent < cfg.cycles {
          assert FirstFiring(cfg, before, plan.nodes) == Some(node);
          raised := SendBack(cfg, plan, run, repo, node, payload);
          return;
        }
      }
    }
    return false;
  }

  /** The verdict that fired is sent back. */
  method SendBack(cfg: Config, plan: Plan, run: WorkflowRun, repo: WorkflowRepository, node: Node, payload: Json)
    returns (raised: bool)
    requires Keyed(plan, repo.rows) && forall e :: e in plan.edges ==> KnownEdge(plan, e)
    requires node.feedback.Some?
    modifies run`outputs, run`skipped, run`repairs, run`pending, repo`rows, repo`durable
    ensures var rule := node.feedback.value; var keys := Affected(plan, rule.target);
      && (raised <==> rule.target !in old(repo.rows) || DetailOf(rule, payload).LookupRaises?)
      && (!raised ==>
            && run.State() == ReopenedRun(old(run.State()), rule.target, FeedbackText(cfg, rule, payload), keys)
            && repo.rows == ReopenedRows(old(repo.rows), keys) && repo.durable == repo.Session())
    ensures raised ==> repo.durable == old(repo.durable)
  {
    hide NodeKeys, KnownEdge, ReopenedRows, Descendants, FeedbackText, DetailOf;
    var rule := node.feedback.value;
    run.repairs := run.repairs[rule.target := Repairs(run.State(), rule.target) + 1];
    if rule.target !in repo.rows {
      return true;
    }
    var below := DescendantsOf(plan, rule.target);
    DescendantsAreNodes(plan, rule.target);
    Reopen(run, repo, {rule.target} + below);
    if DetailOf(rule, payload).LookupRaises? {
      return true;
    }
    run.pending := run.pending[rule.target := FeedbackText(cfg, rule, payload)];
    repo.Commit();
    return false;
  }

  // ---- the loop ----------------------------------------------------------------------------------

  ghost function Now(run: WorkflowRun, repo: WorkflowRepository, remaining: Option<Usd>, phase: Phase): Sys
    reads run, repo
  {
    Sys(repo.Session(), repo.durable, Active(run.State(), remaining, phase))
  }

  ghost function AtRest(repo: WorkflowRepository): Sys
    reads repo
  {
    Sys(repo.Session(), repo.durable, Idle)
  }

  datatype Turn = Ended | Again | Dispatch(batch: seq<Key>, inputs: map<Key, AgentInput>)

  lemma KeysOfNodes(plan: Plan, key: Key)
    ensures key in NodeKeys(plan) <==> key in KeysOf(plan.nodes)
  {
    if key in NodeKeys(plan) {
      var n :| n in plan.nodes && n.key == key;
      var i :| 0 <= i < |plan.nodes| && plan.nodes[i] == n;
      assert KeysOf(plan.nodes)[i] == key;
    }
  }

  lemma AmongNonEmpty(plan: Plan, chosen: set<Key>)
    requires chosen <= NodeKeys(plan)
    ensures Among(KeysOf(plan.nodes), chosen) != [] <==> chosen != {}
  {
    hide NodeKeys;
    var some := Among(KeysOf(plan.nodes), chosen);
    if k :| k in chosen {
      KeysOfNodes(plan, k);
      assert k in some;
    }
    if some != [] {
      assert some[0] in some;
    }
  }

  lemma AnyIsNonEmpty(plan: Plan, v: View, rows: Rows)
    ensures AnyReady(plan, v, rows) <==> ReadyKeys(plan, v, rows) != {}
    ensures AnyGate(plan, v, rows) <==> GateKeys(plan, v, rows) != {}
  {
    hide RuleFor, NodeKeys;
    if k :| k in NodeKeys(plan) && !RuleFor(plan, v, rows, k).NotReady? {
      assert k in ReadyKeys(plan, v, rows);
    }
    if k :| k in NodeKeys(plan) && RuleFor(plan, v, rows, k).Gate? {
      assert k in GateKeys(plan, v, rows);
    }
  }

  lemma ReadyAreRuled(plan: Plan, v: View, rows: Rows)
    requires Keyed(plan, rows)
    ensures OpenReady(plan, v) == ReadyKeys(plan, v, rows)
    ensures AnyReady(plan, v, rows) <==> Among(KeysOf(plan.nodes), ReadyKeys(plan, v, rows)) != []
  {
    AnyIsNonEmpty(plan, v, rows);
    AmongNonEmpty(plan, ReadyKeys(plan, v, rows));
    forall k | k in NodeKeys(plan)
      ensures k in OpenReady(plan, v) <==> k in ReadyKeys(plan, v, rows)
    {
    }
  }

  /** The three filters of the loop pick out the gated nodes and the batch. */
  lemma FiltersCompose(plan: Plan, v: View, rows: Rows)
    ensures var runnable := Among(Among(KeysOf(plan.nodes), ReadyKeys(plan, v, rows)), RunnableKeys(plan, v, rows));
      && Among(runnable, GoKeys(plan, v, rows)) == BatchOf(plan, v, rows, plan.nodes)
      && (Among(runnable, GateKeys(plan, v, rows)) != [] <==> AnyGate(plan, v, rows))
      && (forall k :: k in GoKeys(plan, v, rows) ==> k in runnable)
  {
    hide RuleFor, BatchOf;
    var keys := KeysOf(plan.nodes);
    var ready, runnable := ReadyKeys(plan, v, rows), RunnableKeys(plan, v, rows);
    var go, gate := GoKeys(plan, v, rows), GateKeys(plan, v, rows);
    AmongAmong(keys, ready, runnable);
    AmongAmong(keys, ready * runnable, go);
    AmongAmong(keys, ready * runnable, gate);
    assert ready * runnable * go == go && ready * runnable * gate == gate;
    BatchIsAmong(plan, v, rows, plan.nodes);
    AnyIsNonEmpty(plan, v, rows);
    AmongNonEmpty(plan, gate);
    forall k | k in go
      ensures k in Among(keys, ready * runnable)
    {
      KeysOfNodes(plan, k);
    }
  }

  lemma BatchDistinct(plan: Plan, v: View, rows: Rows)
    requires DistinctKeys(plan.nodes)
    ensures DistinctSeq(BatchOf(plan, v, rows, plan.nodes))
    ensures forall k :: k in BatchOf(plan, v, rows, plan.nodes) ==> k in GoKeys(plan, v, rows)
  {
    hide RuleFor, NodeKeys;
    BatchIsAmong(plan, v, rows, plan.nodes);
    AmongDistinct(KeysOf(plan.nodes), GoKeys(plan, v, rows));
  }

  /** A round raises exactly when the verdict of some ready node does. */
  lemma RoundThrowsReady(plan: Plan, v: View, rows: Rows)
    requires Keyed(plan, rows)
    ensures RoundThrows(plan, v) <==>
      exists k :: k in Among(KeysOf(plan.nodes), ReadyKeys(plan, v, rows)) && VerdictThrows(plan, v, k)
  {
    hide VerdictThrows;
    ReadyAreRuled(plan, v, rows);
    var ready := Among(KeysOf(plan.nodes), ReadyKeys(plan, v, rows));
    if k :| k in NodeKeys(plan) && !Resolved(v, k) && DependenciesResolved(plan, v, k) && VerdictThrows(plan, v, k) {
      KeysOfNodes(plan, k);
      assert k in OpenReady(plan, v) && k in ready;
    }
    if k :| k in ready && VerdictThrows(plan, v, k) {
      assert k in OpenReady(plan, v);
    }
  }

  /** The ruling methods in order: skips, then approvals. */
  method Rule(plan: Plan, run: WorkflowRun, repo: WorkflowRepository, ready: seq<Key>)
    returns (raised: bool, runnable: seq<Key>, gated: seq<Key>, allowed: seq<Key>, ghost done: set<Key>)
    requires Keyed(plan, repo.rows)
    requires ready == Among(KeysOf(plan.nodes), ReadyKeys(plan, RunView(run.State()), repo.rows))
    modifies run`skipped, repo`rows, repo`durable
    ensures raised <==> RoundThrows(plan, RunView(old(run.State())))
    ensures raised ==> repo.durable == old(repo.durable)
    ensures var v, rows := RunView(old(run.State())), old(repo.rows);
      !raised ==>
        && allowed == BatchOf(plan, v, rows, plan.nodes)
        && (gated != [] <==> AnyGate(plan, v, rows))
        && (runnable == [] ==> allowed == [] && gated == [])
        && RuledSoFar(plan, v, rows, run, repo, done)
        && done == ReadyKeys(plan, v, rows) - GoKeys(plan, v, rows)
    ensures repo.durable == old(repo.durable) || repo.durable == repo.Session()
    ensures !raised && runnable == [] ==> repo.durable == repo.Session()
  {
    hide RuleFor, NodeKeys, RowsRuled, SkipsRuled, ResultsIn, BatchOf, AnyGate, RoundThrows, VerdictThrows;
    ghost var v, rows := RunView(run.State()), repo.rows;
    ghost var skipDone: set<Key>;
    RoundThrowsReady(plan, v, rows);
    raised, runnable, skipDone := ResolveSkips(plan, run, repo, ready, v, rows);
    gated, allowed, done := [], [], skipDone;
    if raised {
      return;
    }
    FiltersCompose(plan, v, rows);
    RulingSets(plan, v, rows, ready, runnable);
    if runnable == [] {
      repo.Commit();
      NoneAmong(GateKeys(plan, v, rows));
      NoneAmong(GoKeys(plan, v, rows));
    } else {
      gated, allowed, done := PartitionApproval(plan, run, repo, runnable, v, rows, skipDone);
    }
  }

  /** Ready nodes are skipped, runnable, or both filters missed none. */
  lemma RulingSets(plan: Plan, v: View, rows: Rows, ready: seq<Key>, runnable: seq<Key>)
    requires ready == Among(KeysOf(plan.nodes), ReadyKeys(plan, v, rows))
    requires runnable == Among(ready, RunnableKeys(plan, v, rows))
    ensures KeySet(ready) * SkipKeys(plan, v, rows) + (KeySet(runnable) - GoKeys(plan, v, rows))
         == ReadyKeys(plan, v, rows) - GoKeys(plan, v, rows)
    ensures runnable == [] ==> RunnableKeys(plan, v, rows) == {} && GoKeys(plan, v, rows) == {}
  {
    hide RuleFor, NodeKeys;
    forall k | k in ReadyKeys(plan, v, rows)
      ensures k in ready
    {
      KeysOfNodes(plan, k);
    }
    forall k | k in RunnableKeys(plan, v, rows)
      ensures k in runnable
    {
      assert k in ReadyKeys(plan, v, rows);
    }
    forall k | k in GoKeys(plan, v, rows)
      ensures k in RunnableKeys(plan, v, rows)
    {
    }
  }

  lemma RuledIsStep(plan: Plan, v: View, rows: Rows, done: set<Key>)
    requires Keyed(plan, rows) && done == ReadyKeys(plan, v, rows) - GoKeys(plan, v, rows)
    ensures RowsRuled(plan, v, rows, done + GoKeys(plan, v, rows)) == RuledRows(plan, v, rows)
    ensures SkipsRuled(plan, v, rows, done) == SkipsRuled(plan, v, rows, done + GoKeys(plan, v, rows))
        == NewSkips(plan, v, rows)
  {
    GoSkipsNothing(plan, v, rows, done);
  }

  lemma GoSkipsNothing(plan: Plan, v: View, rows: Rows, done: set<Key>)
    ensures SkipsRuled(plan, v, rows, done) == SkipsRuled(plan, v, rows, done + GoKeys(plan, v, rows))
  {
    hide RuleFor, NodeKeys;
  }

  lemma BatchIsGo(plan: Plan, v: View, rows: Rows, batch: seq<Key>)
    requires batch == BatchOf(plan, v, rows, plan.nodes)
    ensures KeySet(batch) == GoKeys(plan, v, rows)
  {
    hide RuleFor;
    forall k | k in GoKeys(plan, v, rows)
      ensures k in batch
    {
      assert k in NodeKeys(plan);
    }
  }

  /** From the top of the loop to the end of the round, the dispatch of a batch, or an exception. */
  method Schedule(
    plan: Plan, run: WorkflowRun, repo: WorkflowRepository, ghost remaining: Option<Usd>) returns (turn: Turn)
    requires Keyed(plan, repo.rows) && AllSucceeded(run.State()) && DistinctKeys(plan.nodes)
    modifies run`skipped, run`pending, repo
    ensures var next := DecideStep(plan, old(Now(run, repo, remaining, Head)));
      match turn
      case Ended => next == AtRest(repo)
      case Again => next == Now(run, repo, remaining, Head)
      case Dispatch(batch, inputs) => next == Now(run, repo, remaining, Dispatched(batch, inputs))
    ensures turn.Dispatch? ==> DistinctSeq(turn.batch) && turn.inputs.Keys == KeySet(turn.batch) <= NodeKeys(plan)
  {
    hide RuleFor, NodeKeys, RowsRuled, SkipsRuled, ResultsIn, BatchOf, AnyGate, AnyReady, NewSkips, RuledRows;
    hide InputsFor, GoKeys, ReadyKeys, CancelledRows, AllSucceeded, RoundThrows;
    ghost var v, rows, start := RunView(run.State()), repo.rows, run.State();
    if repo.cancelRequested {
      repo.CancelUnfinishedNodes();
      repo.SetStatus(Stopped);
      repo.Commit();
      return Ended;
    }
    var ready := ReadyNodes(plan, run);
    ReadyAreRuled(plan, v, rows);
    if ready == [] {
      RoundThrowsReady(plan, v, rows);
      repo.SetStatus(Finished);
      repo.Commit();
      return Ended;
    }
    var raised, runnable, gated, allowed, done := Rule(plan, run, repo, ready);
    if raised {
      repo.Rollback();
      return Ended;
    }
    RuledIsStep(plan, v, rows, done);
    BatchIsGo(plan, v, rows, allowed);
    if runnable == [] {
      assert done + GoKeys(plan, v, rows) == done;
      return Again;
    }
    if gated != [] && allowed == [] {
      assert done + GoKeys(plan, v, rows) == done;
      repo.SetStatus(Paused);
      repo.Commit();
      return Ended;
    }
    if allowed == [] {
      assert done + GoKeys(plan, v, rows) == done;
      repo.Commit();
      return Again;
    }
    BatchDistinct(plan, v, rows);
    var inputs := Prepare(plan, run, repo, allowed, v, rows, done);
    repo.Commit();
    GoAreNodes(plan, v, rows);
    SameInputs(plan, start.(skipped := run.skipped), start.(skipped := start.skipped + NewSkips(plan, v,
        rows)), allowed);
    return Dispatch(allowed, inputs);
  }

  lemma GoAreNodes(plan: Plan, v: View, rows: Rows)
    ensures GoKeys(plan, v, rows) <= NodeKeys(plan)
  {
  }

  lemma SameInputs(plan: Plan, run: Run, run': Run, batch: seq<Key>)
    requires run == run'
    ensures InputsFor(plan, run, batch) == InputsFor(plan, run', batch)
    ensures InputsFor(plan, run, batch).Keys == KeySet(batch)
  {
  }

  // ---- the run ------------------------------------------------------------------------------------

  /** `trace` leads the machine from `from` to `to` by steps of one run, honestly if `honest`. */
  ghost predicate Traced(plan: Plan, cfg: Config, from: Sys, trace: seq<Event>, to: Sys, honest: bool) {
    && Steps(plan, cfg, from, trace) == to
    && (forall e :: e in trace ==> RunEvent(e))
    && (honest ==> forall i :: 0 <= i < |trace| ==> Honest(Steps(plan, cfg, from, trace[..i]), trace[i]))
  }

  lemma TraceStarts(plan: Plan, cfg: Config, s: Sys, honest: bool)
    ensures Traced(plan, cfg, s, [], s, honest)
  {
  }

  lemma TraceGrows(plan: Plan, cfg: Config, from: Sys, trace: seq<Event>, s: Sys, honest: bool, e: Event)
    requires Traced(plan, cfg, from, trace, s, honest) && RunEvent(e) && InRun(plan, cfg, s)
    requires honest ==> Honest(s, e)
    ensures Traced(plan, cfg, from, trace + [e], Step(plan, cfg, s, e), honest)
    ensures InRun(plan, cfg, Step(plan, cfg, s, e))
    ensures Measure(plan, cfg, Step(plan, cfg, s, e)) + (if GoesOn(plan, cfg, s, e) then 1 else 0)
        <= Measure(plan, cfg, s)
  {
    hide Step, Honest, InRun, Measure, GoesOn;
    var longer := trace + [e];
    assert longer[..|trace|] == trace;
    forall i | honest && 0 <= i < |longer|
      ensures Honest(Steps(plan, cfg, from, longer[..i]), longer[i])
    {
      if i < |trace| {
        assert longer[..i] == trace[..i];
      }
    }
    RunStep(plan, cfg, s, e);
  }

  lemma DecideIsStep(plan: Plan, cfg: Config, s: Sys)
    requires s.mode.Active? && s.mode.phase.Head?
    ensures Step(plan, cfg, s, Decide) == DecideStep(plan, s)
    ensures GoesOn(plan, cfg, s, Decide) == DecideStep(plan, s).mode.Active?
    ensures Honest(s, Decide)
  {
  }

  lemma RecordIsStep(plan: Plan, cfg: Config, s: Sys, results: Results)
    requires s.mode.Active? && s.mode.phase.Dispatched?
    requires results.Keys == s.mode.phase.inputs.Keys
    requires forall k :: k in results ==>
      k in NodeKeys(plan) && AttemptsAllowed(cfg.tries(NodeOf(plan, k).agentId), UsedAttempts(s.mode.run, k),
          results[k])
    ensures Step(plan, cfg, s, Record(results)) == RecordStep(s, results)
    ensures (forall k :: k in results ==> Affordable(results[k], s.mode.remaining)) ==> Honest(s, Record(results))
    ensures forall k :: k in results ==> results[k] != []
  {
    hide RecordStep, NodeKeys, NodeOf, UsedAttempts;
    forall k | k in results
      ensures results[k] != []
    {
      hide AttemptsAllowed;
    }
    hide AttemptsAllowed;
  }

  lemma CancelIsStep(plan: Plan, cfg: Config, s: Sys)
    ensures Step(plan, cfg, s, RequestCancel)
         == if s.durable.status in {Finished, Broken, Stopped} then s
            else s.(store := s.store.(cancelRequested := true), durable := s.durable.(cancelRequested := true))
    ensures Honest(s, RequestCancel)
  {
  }

  lemma FailIsStep(plan: Plan, cfg: Config, s: Sys)
    requires s.mode.Active? && s.mode.phase == Recorded(true)
    ensures Step(plan, cfg, s, Fail) == Committed(s.store.(status := Broken), Idle)
    ensures Honest(s, Fail)
  {
  }

  lemma RouteIsStep(plan: Plan, cfg: Config, s: Sys)
    requires s.mode.Active? && s.mode.phase == Recorded(false)
    ensures Step(plan, cfg, s, Route) == RouteStep(plan, cfg, s)
    ensures Honest(s, Route)
  {
  }

  lemma TraceRounds(plan: Plan, cfg: Config, from: Sys, trace: seq<Event>, to: Sys, honest: bool)
    requires Traced(plan, cfg, from, trace, to, honest) && InRun(plan, cfg, from)
    ensures Rounds(plan, cfg, from, trace) <= Measure(plan, cfg, from)
  {
    RoundsSpendMeasure(plan, cfg, from, trace);
    MeasureIsNat(plan, cfg, to);
  }

  lemma HeadFacts(plan: Plan, cfg: Config, s: Sys)
    requires InRun(plan, cfg, s) && s.mode.Active?
    ensures Keyed(plan, s.store.rows) && DistinctKeys(plan.nodes)
    ensures forall e :: e in plan.edges ==> KnownEdge(plan, e)
    ensures s.mode.phase.Head? ==> AllSucceeded(s.mode.run)
  {
    SoundFacts(plan, cfg, s);
  }

  ghost function StartOf(cfg: Config, run: WorkflowRun, repo: WorkflowRepository): Sys
    reads run, repo
  {
    Sys(repo.Session().(status := InProgress), repo.durable, Active(run.State(), Remaining(cfg.budget,
        repo.cost), Head))
  }

  /** A dispatched batch: run it, record it, and send a verdict back or fail. */
  method Perform(
    cfg: Config, world: World, plan: Plan, run: WorkflowRun, repo: WorkflowRepository, batch: seq<Key>,
    inputs: map<Key, AgentInput>, remaining: Option<Usd>, ghost start: Sys, ghost before: seq<Event>)
    returns (ended: bool, left: Option<Usd>, ghost trace: seq<Event>)
    requires InRun(plan, cfg, Now(run, repo, remaining, Dispatched(batch, inputs)))
    requires Traced(plan, cfg, start, before, Now(run, repo, remaining, Dispatched(batch, inputs)), HonestWorld(world))
    requires DistinctSeq(batch) && inputs.Keys == KeySet(batch) <= NodeKeys(plan)
    modifies run, repo
    ensures ended ==> Traced(plan, cfg, start, trace, AtRest(repo), HonestWorld(world))
    ensures !ended ==>
      var next := Now(run, repo, left, Head);
      && InRun(plan, cfg, next)
      && Traced(plan, cfg, start, trace, next, HonestWorld(world))
      && Measure(plan, cfg, next) <= Measure(plan, cfg, old(Now(run, repo, remaining, Dispatched(batch, inputs))))
  {
    hide InRun, Step, Measure, GoesOn, Honest, HonestWorld, KnownEdge, Affordable, AttemptsAllowed, NodeKeys;
    hide NodeOf, RecordedRun, RecordedRows, BatchCost, AllSucceeded, Traced, UsedAttempts, Remaining;
    hide FirstFiring, RoutingThrows, FeedbackText, Affected, ReopenedRows, ReopenedRun, AnyFailure;
    ghost var honest, sent := HonestWorld(world), Now(run, repo, remaining, Dispatched(batch, inputs));
    HeadFacts(plan, cfg, sent);
    var results := ExecuteBatch(cfg, world, plan, run, batch, remaining);
    RecordIsStep(plan, cfg, sent, results);
    TraceGrows(plan, cfg, start, before, sent, honest, Record(results));
    trace := before + [Record(results)];
    var failed;
    left, failed := RecordBatch(run, repo, batch, inputs, results, remaining);
    repo.Commit();
    ghost var recorded := Now(run, repo, left, Recorded(failed));
    assert recorded == RecordStep(sent, results);
    if failed {
      FailIsStep(plan, cfg, recorded);
      TraceGrows(plan, cfg, start, trace, recorded, honest, Fail);
      trace := trace + [Fail];
      repo.SetStatus(Broken);
      repo.Commit();
      return true, left, trace;
    }
    HeadFacts(plan, cfg, recorded);
    RouteIsStep(plan, cfg, recorded);
    TraceGrows(plan, cfg, start, trace, recorded, honest, Route);
    trace := trace + [Route];
    ended := RouteFeedback(cfg, plan, run, repo);
    if ended {
      repo.Rollback();
    }
  }

  /** `run`: it ends, whatever the agents answer and whenever cancellation comes, and every state it
      passes is one the machine passes. */
  method RunWorkflow(cfg: Config, world: World, plan: Plan, run: WorkflowRun, repo: WorkflowRepository)
    returns (ghost trace: seq<Event>)
    requires InRun(plan, cfg, StartOf(cfg, run, repo))
    modifies run, repo
    ensures Traced(plan, cfg, old(StartOf(cfg, run, repo)), trace, AtRest(repo), HonestWorld(world))
    ensures Rounds(plan, cfg, old(StartOf(cfg, run, repo)), trace) <= Measure(plan, cfg, old(StartOf(cfg, run, repo)))
  {
    hide InRun, Step, Measure, GoesOn, Rounds, Honest, HonestWorld, DecideStep, KnownEdge, NodeKeys, AllSucceeded;
    hide Traced, Remaining, Keyed;
    ghost var start, honest := StartOf(cfg, run, repo), HonestWorld(world);
    repo.SetStatus(InProgress);
    var remaining := Remaining(cfg.budget, repo.cost);
    trace := [];
    TraceStarts(plan, cfg, start, honest);
    var poll := 0;
    while true
      invariant InRun(plan, cfg, Now(run, repo, remaining, Head))
      invariant Traced(plan, cfg, start, trace, Now(run, repo, remaining, Head), honest)
      decreases Measure(plan, cfg, Now(run, repo, remaining, Head))
    {
      MeasureIsNat(plan, cfg, Now(run, repo, remaining, Head));
      if world.cancels(poll) {
        ghost var s := Now(run, repo, remaining, Head);
        var accepted := repo.RequestCancellation();
        CancelIsStep(plan, cfg, s);
        TraceGrows(plan, cfg, start, trace, s, honest, RequestCancel);
        trace := trace + [RequestCancel];
      }
      poll := poll + 1;

      ghost var head := Now(run, repo, remaining, Head);
      HeadFacts(plan, cfg, head);
      var turn := Schedule(plan, run, repo, remaining);
      DecideIsStep(plan, cfg, head);
      TraceGrows(plan, cfg, start, trace, head, honest, Decide);
      trace := trace + [Decide];
      if turn.Ended? {
        break;
      }
      if turn.Dispatch? {
        var ended;
        ended, remaining, trace := Perform(cfg, world, plan, run, repo, turn.batch, turn.inputs, remaining,
            start, trace);
        if ended {
          break;
        }
      }
    }
    TraceRounds(plan, cfg, start, trace, AtRest(repo), honest);
  }
}
