/** Starting, resuming and controlling a workflow
    (`backend/app/services/orchestration_service.py`). */
module Service {
  import opened Graphs
  import opened Plans
  import opened Protocol
  import opened Invariants
  import opened Soundness
  import opened Termination
  import opened Budgets
  import opened Repository
  import opened Engine

  // ---- starting and resuming a workflow -----------------------------------------------------------

  lemma {:induction false} FirstStep(plan: Plan, cfg: Config, s: Sys, e: Event, trace: seq<Event>)
    ensures Steps(plan, cfg, s, [e] + trace) == Steps(plan, cfg, Step(plan, cfg, s, e), trace)
  {
    hide Step;
    var events := [e] + trace;
    if trace == [] {
      assert events[..0] == [];
    } else {
      assert events[..|events| - 1] == [e] + trace[..|trace| - 1];
      FirstStep(plan, cfg, s, e, trace[..|trace| - 1]);
    }
  }

  lemma ExecuteStarts(plan: Plan, cfg: Config, s: Sys)
    requires ValidPlan(plan) && Invariant(plan, cfg, s) && s.mode.Idle? && s.store.status == Pending
    ensures Step(plan, cfg, s, Execute) == ExecuteStep(cfg, s) && InRun(plan, cfg, ExecuteStep(cfg, s))
  {
    hide ValidPlan, Sound;
    StepInvariant(plan, cfg, s, Execute);
  }

  lemma ResumeStarts(plan: Plan, cfg: Config, s: Sys)
    requires ValidPlan(plan) && Invariant(plan, cfg, s) && s.mode.Idle? && s.store.status != Finished
    ensures Step(plan, cfg, s, Resume) == ResumeStep(cfg, s) && InRun(plan, cfg, ResumeStep(cfg, s))
  {
    hide ValidPlan, Sound, ResumableRows;
    StepInvariant(plan, cfg, s, Resume);
  }

  lemma EndsAtRest(plan: Plan, cfg: Config, from: Sys, trace: seq<Event>, to: Sys, honest: bool)
    requires InRun(plan, cfg, from) && Traced(plan, cfg, from, trace, to, honest)
    ensures Invariant(plan, cfg, to)
  {
    RoundsSpendMeasure(plan, cfg, from, trace);
  }

  /** `execute`: a fresh run of a pending workflow. */
  method ExecuteWorkflow(
    cfg: Config, world: World, plan: Plan, repo: WorkflowRepository) returns (ghost trace: seq<Event>)
    requires ValidPlan(plan) && Invariant(plan, cfg, AtRest(repo))
    requires repo.status == Pending
    modifies repo
    ensures Steps(plan, cfg, old(AtRest(repo)), [Execute] + trace) == AtRest(repo)
    ensures Invariant(plan, cfg, AtRest(repo))
    ensures forall e :: e in trace ==> RunEvent(e)
  {
    hide Step, InRun, Invariant, ValidPlan, Rounds, Measure, Honest;
    ghost var s := AtRest(repo);
    var run := new WorkflowRun.Fresh();
    ExecuteStarts(plan, cfg, s);
    trace := RunWorkflow(cfg, world, plan, run, repo);
    FirstStep(plan, cfg, s, Execute, trace);
    EndsAtRest(plan, cfg, ExecuteStep(cfg, s), trace, AtRest(repo), HonestWorld(world));
  }

  /** `resume`: refused once completed, and otherwise a run from what the store knows. */
  method ResumeWorkflow(cfg: Config, world: World, plan: Plan, repo: WorkflowRepository)
    returns (resumed: bool, ghost trace: seq<Event>)
    requires ValidPlan(plan) && Invariant(plan, cfg, AtRest(repo))
    modifies repo
    ensures resumed == (old(repo.status) != Finished)
    ensures resumed ==> Steps(plan, cfg, old(AtRest(repo)), [Resume] + trace) == AtRest(repo)
    ensures !resumed ==> AtRest(repo) == old(AtRest(repo))
    ensures Invariant(plan, cfg, AtRest(repo))
    ensures forall e :: e in trace ==> RunEvent(e)
  {
    hide Step, InRun, Invariant, ValidPlan, Rounds, Measure, Honest, ResumableRows, StoredView;
    ghost var s := AtRest(repo);
    trace := [];
    if repo.status == Finished {
      return false, trace;
    }
    repo.PrepareResume();
    var results, skips, used := repo.CompletedState();
    var run := new WorkflowRun.Restore(results, skips, used);
    ResumeStarts(plan, cfg, s);
    assert StartOf(cfg, run, repo) == ResumeStep(cfg, s);
    trace := RunWorkflow(cfg, world, plan, run, repo);
    FirstStep(plan, cfg, s, Resume, trace);
    EndsAtRest(plan, cfg, ResumeStep(cfg, s), trace, AtRest(repo), HonestWorld(world));
    resumed := true;
  }

  // ---- operator controls --------------------------------------------------------------------------

  /** `_require_node`: whether the control is allowed. */
  method RequireNode(repo: WorkflowRepository, key: Key, allowed: set<NodeStatus>) returns (ok: bool)
    ensures ok == Controllable(AtRest(repo), key, allowed)
  {
    return repo.status != InProgress && key in repo.rows && repo.rows[key].status in allowed;
  }

  method ApproveNode(cfg: Config, plan: Plan, repo: WorkflowRepository, key: Key, reason: string) returns (ok: bool)
    requires repo.Session() == repo.durable
    modifies repo
    ensures AtRest(repo) == Step(plan, cfg, old(AtRest(repo)), Approve(key, reason))
    ensures ok == Enabled(plan, cfg, old(AtRest(repo)), Approve(key, reason))
  {
    ok := RequireNode(repo, key, {AwaitingApproval});
    if ok {
      repo.RecordApproval(key, Decision(true, reason));
      repo.Commit();
    }
  }

  method RejectNode(cfg: Config, plan: Plan, repo: WorkflowRepository, key: Key, reason: string, actor: string)
    returns (ok: bool)
    requires repo.Session() == repo.durable
    modifies repo
    ensures AtRest(repo) == Step(plan, cfg, old(AtRest(repo)), Reject(key, reason, actor))
    ensures ok == Enabled(plan, cfg, old(AtRest(repo)), Reject(key, reason, actor))
  {
    ok := RequireNode(repo, key, {AwaitingApproval});
    if ok {
      repo.RecordApproval(key, Decision(false, RejectionReason(reason, actor)));
      repo.Commit();
    }
  }

  method SkipNodeByOperator(
    cfg: Config, plan: Plan, repo: WorkflowRepository, key: Key, reason: string) returns (ok: bool)
    requires repo.Session() == repo.durable
    modifies repo
    ensures AtRest(repo) == Step(plan, cfg, old(AtRest(repo)), OperatorSkip(key, reason))
    ensures ok == Enabled(plan, cfg, old(AtRest(repo)), OperatorSkip(key, reason))
  {
    ok := RequireNode(repo, key, {Waiting, Ready, Failed, AwaitingApproval});
    if ok {
      repo.SkipNode(key, if reason != "" then reason else "skipped by operator", true);
      repo.Commit();
    }
  }

  lemma ReopenTwice(rows: Rows, key: Key, below: set<Key>)
    requires key in rows
    ensures ReopenedRows(rows[key := ReopenRow(rows[key])], below) == ReopenedRows(rows, {key} + below)
  {
  }

  /** `retry_node`: the failed node and everything downstream of it wait again. */
  method RetryNode(cfg: Config, plan: Plan, repo: WorkflowRepository, key: Key) returns (ok: bool)
    requires repo.Session() == repo.durable && Keyed(plan, repo.rows)
    requires forall e :: e in plan.edges ==> KnownEdge(plan, e)
    modifies repo
    ensures AtRest(repo) == Step(plan, cfg, old(AtRest(repo)), Retry(key))
    ensures ok == Enabled(plan, cfg, old(AtRest(repo)), Retry(key))
  {
    hide KnownEdge, Descendants, ReopenedRows, NodeKeys;
    ok := RequireNode(repo, key, {Failed});
    if ok {
      var below := DescendantsOf(plan, key);
      DescendantsAreNodes(plan, key);
      ReopenTwice(repo.rows, key, below);
      repo.ReopenNode(key);
      repo.ReopenNodes(below);
      repo.Commit();
    }
  }
}
