/** The workflow engine as a state machine. A state is the database session, the last commit, and
    the memory of the run in progress; a step is one stretch of `backend/app/workflows/engine.py`
    between two commits, an operator control of `backend/app/services/orchestration_service.py`, or
    a crash. */
module Protocol {
  import opened Collections
  import opened Graphs
  import opened Conditions
  import opened Plans

  type Usd = r: real | r >= 0.0 witness 0.0

  // ---- rows and the store ---------------------------------------------------

  datatype NodeStatus = Waiting | Ready | Running | Completed | Skipped | Failed | Cancelled | AwaitingApproval

  datatype WorkflowStatus = Pending | InProgress | Paused | Finished | Broken | Stopped

  datatype ExecutionStatus = Succeeded | Errored | TimedOut | Aborted | InvalidOutput | BudgetExceeded

  datatype Decision = Decision(approved: bool, reason: string)

  datatype Upstream = Upstream(source: Key, payload: Json)

  datatype LogEntry = LogEntry(number: nat, status: ExecutionStatus, cost: Usd)

  /** A node's row. `basis` and `byHuman` are history: the inputs the stored result was computed from,
      and whether a person rather than the engine decided the stored skip. */
  datatype Row = Row(
    status: NodeStatus, payload: Json, skipReason: Option<string>, approval: Option<Decision>,
    attempts: nat, log: seq<LogEntry>, basis: seq<Upstream>, byHuman: bool)

  type Rows = map<Key, Row>

  datatype Store = Store(status: WorkflowStatus, rows: Rows, cost: Usd, cancelRequested: bool)

  // ---- the run's memory -------------------------------------------------------

  /** One attempt's outcome. `retryable` reads the error, if there is one. */
  datatype Output = Output(status: ExecutionStatus, payload: Json, cost: Usd, attempt: nat, retryable: bool)

  datatype AgentInput = AgentInput(upstream: seq<Upstream>, feedback: Option<string>)

  datatype Run = Run(
    outputs: map<Key, Output>, skipped: map<Key, string>, attempts: map<Key, nat>,
    pending: map<Key, string>, repairs: map<Key, nat>, totalCost: Usd)

  const FRESH_RUN := Run(map[], map[], map[], map[], map[], 0.0)

  datatype Phase =
    | Head
    | Dispatched(batch: seq<Key>, inputs: map<Key, AgentInput>)
    | Recorded(failed: bool)

  datatype Mode =
    | Idle
    | Active(run: Run, remaining: Option<Usd>, phase: Phase)

  datatype Sys = Sys(store: Store, durable: Store, mode: Mode)

  type Tries = n: nat | 1 <= n <= 10 witness 1

  /** `tries` is each agent's retry policy and `ceiling` its own cost limit; `cycles` is the engine's
      repair limit; `render` writes out a value that is not text. */
  datatype Config = Config(
    budget: Option<Usd>, cycles: nat, tries: string -> Tries, ceiling: string -> Usd, render: Lookup -> string)

  // ---- what the scheduling helpers read ---------------------------------------

  datatype View = View(results: map<Key, Json>, skips: map<Key, string>)

  function ReasonOf(row: Row): string {
    if row.skipReason.Some? && row.skipReason.value != "" then row.skipReason.value else "skipped"
  }

  /** The results and skips of `completed_state`. */
  function StoredView(rows: Rows): View {
    View(map k | k in rows && rows[k].status == Completed :: rows[k].payload,
         map k | k in rows && rows[k].status == Skipped :: ReasonOf(rows[k]))
  }

  function ResultsIn(outputs: map<Key, Output>): map<Key, Json> {
    map k | k in outputs && outputs[k].status == Succeeded :: outputs[k].payload
  }

  function RunView(run: Run): View {
    View(ResultsIn(run.outputs), run.skipped)
  }

  predicate Resolved(v: View, key: Key) {
    key in v.results || key in v.skips
  }

  predicate DependenciesResolved(plan: Plan, v: View, key: Key) {
    forall e :: e in plan.edges && e.target == key ==> Resolved(v, e.source)
  }

  function Describe(condition: Condition, source: Key): (text: string)
    ensures text != ""
  {
    if condition.description != "" then condition.description
    else "'" + source + "." + condition.path + "' did not satisfy the condition"
  }

  /** Why an edge is not satisfied, if it is not. */
  function Complaint(e: Edge, v: View): (text: Option<string>)
    ensures text.Some? ==> text.value != ""
  {
    if e.source in v.skips then Some("'" + e.source + "' was skipped")
    else if e.source !in v.results then Some("'" + e.source + "' produced no result")
    else if e.condition.Some? && !Holds(e.condition.value, v.results[e.source]) then
      Some(Describe(e.condition.value, e.source))
    else None
  }

  /** Reading an edge's condition raises. */
  predicate EdgeThrows(e: Edge, v: View) {
    && e.source !in v.skips && e.source in v.results
    && e.condition.Some? && Throws(e.condition.value, v.results[e.source])
  }

  /** Computing a node's verdict raises: every one of its edges is read. */
  predicate VerdictThrows(plan: Plan, v: View, key: Key) {
    exists e :: e in plan.edges && e.target == key && EdgeThrows(e, v)
  }

  function Incoming(edges: seq<Edge>, key: Key): (incoming: seq<Edge>)
    ensures forall e :: e in incoming <==> e in edges && e.target == key
  {
    if edges == [] then []
    else (if edges[0].target == key then [edges[0]] else []) + Incoming(edges[1..], key)
  }

  function Complaints(incoming: seq<Edge>, v: View): (texts: seq<string>)
    ensures |texts| <= |incoming|
    ensures forall t :: t in texts ==> t != ""
  {
    if incoming == [] then []
    else
      var head := Complaint(incoming[0], v);
      (if head.Some? then [head.value] else []) + Complaints(incoming[1..], v)
  }

  function Joined(texts: seq<string>): (text: string)
    ensures texts != [] && texts[0] != "" ==> text != ""
  {
    if texts == [] then "" else if |texts| == 1 then texts[0] else texts[0] + "; " + Joined(texts[1..])
  }

  /** `_skip_reason`: why a node should not run, or nothing if it should. */
  function SkipReason(plan: Plan, v: View, node: Node): (reason: Option<string>)
    ensures reason.Some? ==> reason.value != ""
  {
    var incoming := Incoming(plan.edges, node.key);
    var texts := Complaints(incoming, v);
    if incoming == [] then None
    else if node.joinPolicy == Any && |texts| < |incoming| then None
    else if texts == [] then None
    else assert texts[0] in texts; Some(Joined(texts))
  }

  function Contributions(edges: seq<Edge>, v: View, key: Key): seq<Upstream> {
    if edges == [] then []
    else
      var e := edges[0];
      (if e.target == key && e.passPayload && e.source in v.results
       then [Upstream(e.source, v.results[e.source])] else [])
      + Contributions(edges[1..], v, key)
  }

  /** `_upstream_for`: the payloads a node is given, in edge order. */
  function UpstreamFor(plan: Plan, v: View, key: Key): seq<Upstream> {
    Contributions(plan.edges, v, key)
  }

  // ---- one scheduling round -----------------------------------------------------

  datatype Ruling = NotReady | SkipIt(reason: string) | Gate | Refuse(reason: string) | Go

  /** What `_ready_nodes`, `_resolve_skips` and `_partition_approval` together decide about a node. */
  function RuleFor(plan: Plan, v: View, rows: Rows, key: Key): Ruling {
    if key !in NodeKeys(plan) || key !in rows || Resolved(v, key) || !DependenciesResolved(plan, v, key) then
      NotReady
    else
      var node := NodeOf(plan, key);
      var reason := SkipReason(plan, v, node);
      if reason.Some? then SkipIt(reason.value)
      else if !node.requiresApproval then Go
      else if rows[key].approval.None? then Gate
      else if rows[key].approval.value.approved then Go
      else Refuse(rows[key].approval.value.reason)
  }

  function SkipRow(row: Row, reason: string, byHuman: bool): Row {
    row.(status := Skipped, skipReason := Some(reason), byHuman := byHuman)
  }

  function RuledRow(ruling: Ruling, row: Row): Row {
    match ruling
    case NotReady => row
    case SkipIt(reason) => SkipRow(row, reason, false)
    case Gate => row.(status := AwaitingApproval)
    case Refuse(reason) => SkipRow(row, reason, true)
    case Go => row.(status := Running)
  }

  function RuledRows(plan: Plan, v: View, rows: Rows): Rows {
    map k | k in rows :: RuledRow(RuleFor(plan, v, rows, k), rows[k])
  }

  function NewSkips(plan: Plan, v: View, rows: Rows): map<Key, string> {
    map k | k in rows && (RuleFor(plan, v, rows, k).SkipIt? || RuleFor(plan, v, rows, k).Refuse?)
      :: RuleFor(plan, v, rows, k).reason
  }

  /** The nodes that may run, in plan order. */
  function BatchOf(plan: Plan, v: View, rows: Rows, nodes: seq<Node>): (batch: seq<Key>)
    ensures forall k :: k in batch <==> RuleFor(plan, v, rows, k).Go? && exists n :: n in nodes && n.key == k
  {
    if nodes == [] then []
    else
      (if RuleFor(plan, v, rows, nodes[0].key).Go? then [nodes[0].key] else [])
      + BatchOf(plan, v, rows, nodes[1..])
  }

  predicate AnyReady(plan: Plan, v: View, rows: Rows) {
    exists k :: k in NodeKeys(plan) && !RuleFor(plan, v, rows, k).NotReady?
  }

  /** Some ready node's verdict raises. */
  predicate RoundThrows(plan: Plan, v: View) {
    exists k ::
      k in NodeKeys(plan) && !Resolved(v, k) && DependenciesResolved(plan, v, k) && VerdictThrows(plan, v, k)
  }

  predicate AnyGate(plan: Plan, v: View, rows: Rows) {
    exists k :: k in NodeKeys(plan) && RuleFor(plan, v, rows, k).Gate?
  }

  function PendingFor(pending: map<Key, string>, key: Key): Option<string> {
    if key in pending then Some(pending[key]) else None
  }

  function InputsFor(plan: Plan, run: Run, batch: seq<Key>): map<Key, AgentInput> {
    map k | k in batch :: AgentInput(UpstreamFor(plan, RunView(run), k), PendingFor(run.pending, k))
  }

  predicate Unfinished(status: NodeStatus) {
    status in {Waiting, Ready, Running, AwaitingApproval}
  }

  function CancelledRows(rows: Rows): Rows {
    map k | k in rows :: if Unfinished(rows[k].status) then rows[k].(status := Cancelled) else rows[k]
  }

  function Committed(store: Store, mode: Mode): Sys {
    Sys(store, store, mode)
  }

  /** From the top of the loop to the commit that ends the round, parks it, or precedes dispatch; a
      verdict that raises ends the run. */
  function DecideStep(plan: Plan, s: Sys): Sys
    requires s.mode.Active?
  {
    var run, store := s.mode.run, s.store;
    if store.cancelRequested then
      Committed(store.(status := Stopped, rows := CancelledRows(store.rows)), Idle)
    else
      var v := RunView(run);
      var ruled := store.(rows := RuledRows(plan, v, store.rows));
      var run' := run.(skipped := run.skipped + NewSkips(plan, v, store.rows));
      var batch := BatchOf(plan, v, store.rows, plan.nodes);
      if RoundThrows(plan, v) then CrashStep(s)
      else if !AnyReady(plan, v, store.rows) then Committed(store.(status := Finished), Idle)
      else if batch != [] then
        Committed(ruled, s.mode.(run := run'.(pending := run.pending - KeySet(batch)),
                                 phase := Dispatched(batch, InputsFor(plan, run', batch))))
      else if AnyGate(plan, v, store.rows) then Committed(ruled.(status := Paused), Idle)
      else Committed(ruled, s.mode.(run := run'))
  }

  // ---- recording a batch ----------------------------------------------------------

  /** What `_attempt_node` may return: numbered on from the attempts already used, stopped by the
      first success or non-retryable error, and otherwise by the retry policy. */
  ghost predicate AttemptsAllowed(tries: Tries, used: nat, outs: seq<Output>) {
    && 1 <= |outs| <= tries
    && (forall i :: 0 <= i < |outs| ==> outs[i].attempt == used + 1 + i)
    && (forall i :: 0 <= i < |outs| - 1 ==> outs[i].status != Succeeded && outs[i].retryable)
    && (|outs| == tries || outs[|outs| - 1].status == Succeeded || !outs[|outs| - 1].retryable)
  }

  function Max(a: nat, b: nat): nat {
    if a < b then b else a
  }

  /** `record_execution` on the node's row. */
  function RecordOne(row: Row, out: Output, upstream: seq<Upstream>): Row {
    var logged := row.(attempts := Max(row.attempts, out.attempt),
                       log := row.log + [LogEntry(out.attempt, out.status, out.cost)]);
    match out.status
    case Succeeded => logged.(status := Completed, payload := out.payload, basis := upstream)
    case Aborted => logged.(status := Cancelled)
    case _ => logged
  }

  function RecordAll(row: Row, outs: seq<Output>, upstream: seq<Upstream>): Row {
    if outs == [] then row
    else RecordOne(RecordAll(row, outs[..|outs| - 1], upstream), outs[|outs| - 1], upstream)
  }

  function FailRow(row: Row): Row {
    row.(status := Failed)
  }

  function RecordedRow(row: Row, outs: seq<Output>, upstream: seq<Upstream>): Row
    requires outs != []
  {
    var row' := RecordAll(row, outs, upstream);
    if outs[|outs| - 1].status == Succeeded then row' else FailRow(row')
  }

  function CostOf(outs: seq<Output>): Usd {
    if outs == [] then 0.0 else CostOf(outs[..|outs| - 1]) + outs[|outs| - 1].cost
  }

  type Results = map<Key, seq<Output>>

  function BatchCost(batch: seq<Key>, results: Results): Usd {
    if batch == [] then 0.0
    else
      var k := batch[|batch| - 1];
      BatchCost(batch[..|batch| - 1], results) + (if k in results then CostOf(results[k]) else 0.0)
  }

  function Less(budget: Usd, cost: Usd): Usd {
    if budget <= cost then 0.0 else budget - cost
  }

  function Remaining(budget: Option<Usd>, cost: Usd): Option<Usd> {
    if budget.None? then None else Some(Less(budget.value, cost))
  }

  ghost predicate ResultsAllowed(plan: Plan, cfg: Config, run: Run, inputs: map<Key, AgentInput>, results: Results) {
    && results.Keys == inputs.Keys
    && forall k :: k in inputs && k in NodeKeys(plan) ==>
         AttemptsAllowed(cfg.tries(NodeOf(plan, k).agentId), UsedAttempts(run, k), results[k])
  }

  function UsedAttempts(run: Run, key: Key): nat {
    if key in run.attempts then run.attempts[key] else 0
  }

  function RecordedRows(rows: Rows, inputs: map<Key, AgentInput>, results: Results): Rows {
    map k | k in rows ::
      if k in inputs && k in results && results[k] != [] then
        RecordedRow(rows[k], results[k], inputs[k].upstream)
      else rows[k]
  }

  function Last(outs: seq<Output>): Output
    requires outs != []
  {
    outs[|outs| - 1]
  }

  function RecordedRun(run: Run, batch: seq<Key>, results: Results): Run {
    run.(outputs := run.outputs + map k | k in results && results[k] != [] :: Last(results[k]),
         attempts := run.attempts + map k | k in results && results[k] != [] :: UsedAttempts(run, k) + |results[k]|,
         totalCost := run.totalCost + BatchCost(batch, results))
  }

  predicate AnyFailure(results: Results) {
    exists k :: k in results && results[k] != [] && Last(results[k]).status != Succeeded
  }

  function RecordStep(s: Sys, results: Results): Sys
    requires s.mode.Active? && s.mode.phase.Dispatched?
  {
    var phase, run := s.mode.phase, s.mode.run;
    var spent := BatchCost(phase.batch, results);
    Committed(
      s.store.(rows := RecordedRows(s.store.rows, phase.inputs, results), cost := s.store.cost + spent),
      Active(RecordedRun(run, phase.batch, results), Remaining(s.mode.remaining, spent), Recorded(AnyFailure(results))))
  }

  // ---- feedback -------------------------------------------------------------------

  function Repairs(run: Run, key: Key): nat {
    if key in run.repairs then run.repairs[key] else 0
  }

  predicate HasVerdict(run: Run, node: Node) {
    node.feedback.Some? && node.key in run.outputs && run.outputs[node.key].status == Succeeded
  }

  predicate Fires(cfg: Config, run: Run, node: Node) {
    && HasVerdict(run, node)
    && Holds(node.feedback.value.condition, run.outputs[node.key].payload)
    && Repairs(run, node.feedback.value.target) < cfg.cycles
  }

  /** The loop over verdicts stops here: this one fires or raises. */
  predicate Stops(cfg: Config, run: Run, node: Node) {
    HasVerdict(run, node) &&
    (Fires(cfg, run, node) || Throws(node.feedback.value.condition, run.outputs[node.key].payload))
  }

  /** The first node, in plan order, at which the loop over verdicts stops. */
  function FirstFiring(cfg: Config, run: Run, nodes: seq<Node>): (node: Option<Node>)
    ensures node.Some? ==> node.value in nodes && Stops(cfg, run, node.value)
    ensures node.None? ==> forall n :: n in nodes ==> !Stops(cfg, run, n)
  {
    if nodes == [] then None
    else if Stops(cfg, run, nodes[0]) then Some(nodes[0])
    else FirstFiring(cfg, run, nodes[1..])
  }

  // ---- the text a reopened node is given ---------------------------------------------------

  const MAX_FEEDBACK := 2000

  predicate IsSpace(c: char) {
    var n := c as int;
    || 0x9 <= n < 0xE || 0x1C <= n < 0x21 || n == 0x85 || n == 0xA0 || n == 0x1680 || 0x2000 <= n < 0x200B
    || n == 0x2028 || n == 0x2029 || n == 0x202F || n == 0x205F || n == 0x3000
  }

  predicate IsBlank(text: string) {
    forall i :: 0 <= i < |text| ==> IsSpace(text[i])
  }

  /** What the rule's detail path leads to in the verdict's payload. */
  function DetailOf(rule: FeedbackRule, payload: Json): Lookup {
    if rule.detailPath == "" then Found(JNull) else Follow(UNICODE, payload, Split(rule.detailPath))
  }

  /** The detail in words. A missing one is the lookup's sentinel object, which is written out like any
      other value. */
  function Rendered(cfg: Config, detail: Lookup): string {
    if detail == Found(JNull) then ""
    else if detail.Found? && detail.value.JStr? then (if IsBlank(detail.value.text) then "" else detail.value.text)
    else cfg.render(detail)
  }

  function FeedbackText(cfg: Config, rule: FeedbackRule, payload: Json): string {
    var rendered := Rendered(cfg, DetailOf(rule, payload));
    var text := if rendered == "" then rule.message else rule.message + "\n\n" + rendered;
    if |text| > MAX_FEEDBACK then text[..MAX_FEEDBACK] + "\n[truncated]" else text
  }

  /** Sending the verdict back ends the run instead: its condition or its detail raises, or its target
      is not stored. */
  predicate RoutingThrows(run: Run, rows: Rows, node: Node)
    requires HasVerdict(run, node)
  {
    var rule, payload := node.feedback.value, run.outputs[node.key].payload;
    Throws(rule.condition, payload) || rule.target !in rows || DetailOf(rule, payload).LookupRaises?
  }

  function ReopenRow(row: Row): Row {
    row.(status := Waiting, payload := JObj(map[]), skipReason := None, basis := [], byHuman := false)
  }

  function ReopenedRows(rows: Rows, keys: set<Key>): Rows {
    map k | k in rows :: if k in keys then ReopenRow(rows[k]) else rows[k]
  }

  ghost function Affected(plan: Plan, target: Key): set<Key> {
    {target} + Descendants(plan, target)
  }

  function ReopenedRun(run: Run, target: Key, text: string, keys: set<Key>): Run {
    run.(outputs := run.outputs - keys, skipped := run.skipped - keys,
         repairs := run.repairs[target := Repairs(run, target) + 1],
         pending := run.pending[target := text])
  }

  /** The whole effect of `_route_feedback`. */
  ghost function RouteStep(plan: Plan, cfg: Config, s: Sys): Sys
    requires s.mode.Active?
  {
    var run := s.mode.run;
    var firing := FirstFiring(cfg, run, plan.nodes);
    if firing.None? then s.(mode := s.mode.(phase := Head))
    else if RoutingThrows(run, s.store.rows, firing.value) then CrashStep(s)
    else
      var rule := firing.value.feedback.value;
      var text := FeedbackText(cfg, rule, run.outputs[firing.value.key].payload);
      var keys := Affected(plan, rule.target);
      Committed(s.store.(rows := ReopenedRows(s.store.rows, keys)),
                s.mode.(run := ReopenedRun(run, rule.target, text, keys), phase := Head))
  }

  // ---- starting, resuming, crashing --------------------------------------------------

  /** `restore_run` of `completed_state`. */
  function RestoredRun(rows: Rows): Run {
    var v := StoredView(rows);
    FRESH_RUN.(outputs := map k | k in v.results :: Output(Succeeded, v.results[k], 0.0, 1, true),
               skipped := v.skips,
               attempts := map k | k in rows :: rows[k].attempts)
  }

  function ResumableRows(rows: Rows): Rows {
    map k | k in rows ::
      if rows[k].status in {Cancelled, Running, Ready, Failed} then rows[k].(status := Waiting) else rows[k]
  }

  function ExecuteStep(cfg: Config, s: Sys): Sys {
    s.(store := s.store.(status := InProgress),
       mode := Active(FRESH_RUN, Remaining(cfg.budget, s.store.cost), Head))
  }

  function ResumeStep(cfg: Config, s: Sys): Sys {
    var rows := ResumableRows(s.store.rows);
    s.(store := s.store.(status := InProgress, rows := rows, cancelRequested := false),
       mode := Active(RestoredRun(rows), Remaining(cfg.budget, s.store.cost), Head))
  }

  /** The process dies: memory is lost and the session rolls back to the last commit. */
  function CrashStep(s: Sys): Sys {
    Sys(s.durable, s.durable, Idle)
  }

  function InterruptedRows(rows: Rows): Rows {
    map k | k in rows :: if rows[k].status == Running then rows[k].(status := Cancelled) else rows[k]
  }

  /** The sweep at process start: what seemed to be under way is stopped, and no row stays running. */
  function InterruptedStore(store: Store): Store {
    store.(status := if store.status in {InProgress, Pending} then Stopped else store.status,
           rows := InterruptedRows(store.rows))
  }

  // ---- operator controls -----------------------------------------------------------

  function DecidedRow(row: Row, decision: Decision): Row {
    if decision.approved then row.(approval := Some(decision), status := Waiting, skipReason := None)
    else SkipRow(row.(approval := Some(decision)), decision.reason, true)
  }

  function RejectionReason(reason: string, actor: string): (text: string)
    ensures text != ""
  {
    if reason != "" then reason else "rejected by " + actor
  }

  /** `_require_node`: the workflow is not running and the node has one of the allowed statuses. */
  predicate Controllable(s: Sys, key: Key, allowed: set<NodeStatus>) {
    s.mode.Idle? && s.store.status != InProgress && key in s.store.rows && s.store.rows[key].status in allowed
  }

  // ---- the machine ---------------------------------------------------------------------

  datatype Event =
    | Execute
    | Resume
    | Decide
    | Record(results: Results)
    | Route
    | Fail
    | Crash
    | CrashNoted
    | Interrupt
    | RequestCancel
    | Approve(key: Key, reason: string)
    | Reject(key: Key, reason: string, actor: string)
    | Retry(key: Key)
    | OperatorSkip(key: Key, reason: string)

  ghost predicate Enabled(plan: Plan, cfg: Config, s: Sys, e: Event) {
    match e
    case Execute => s.mode.Idle? && s.store.status == Pending
    case Resume => s.mode.Idle? && s.store.status != Finished
    case Decide => s.mode.Active? && s.mode.phase.Head?
    case Record(results) =>
      && s.mode.Active? && s.mode.phase.Dispatched?
      && ResultsAllowed(plan, cfg, s.mode.run, s.mode.phase.inputs, results)
    case Route => s.mode.Active? && s.mode.phase == Recorded(false)
    case Fail => s.mode.Active? && s.mode.phase == Recorded(true)
    case Crash => s.mode.Active?
    case CrashNoted => s.mode.Idle?
    case Interrupt => s.mode.Idle?
    case RequestCancel => s.durable.status !in {Finished, Broken, Stopped}
    case Approve(key, _) => Controllable(s, key, {AwaitingApproval})
    case Reject(key, _, _) => Controllable(s, key, {AwaitingApproval})
    case Retry(key) => Controllable(s, key, {Failed})
    case OperatorSkip(key, _) => Controllable(s, key, {Waiting, Ready, Failed, AwaitingApproval})
  }

  function WithRow(store: Store, key: Key, row: Row): Store {
    store.(rows := store.rows[key := row])
  }

  ghost function Effect(plan: Plan, cfg: Config, s: Sys, e: Event): Sys
    requires Enabled(plan, cfg, s, e)
  {
    match e
    case Execute => ExecuteStep(cfg, s)
    case Resume => ResumeStep(cfg, s)
    case Decide => DecideStep(plan, s)
    case Record(results) => RecordStep(s, results)
    case Route => RouteStep(plan, cfg, s)
    case Fail => Committed(s.store.(status := Broken), Idle)
    case Crash => CrashStep(s)
    case CrashNoted => Committed(s.store.(status := Broken), Idle)
    case Interrupt => Committed(InterruptedStore(s.store), Idle)
    case RequestCancel =>
      s.(store := s.store.(cancelRequested := true), durable := s.durable.(cancelRequested := true))
    case Approve(key, reason) =>
      Committed(WithRow(s.store, key, DecidedRow(s.store.rows[key], Decision(true, reason))), Idle)
    case Reject(key, reason, actor) =>
      Committed(WithRow(s.store, key,
                        DecidedRow(s.store.rows[key], Decision(false, RejectionReason(reason, actor)))), Idle)
    case Retry(key) =>
      Committed(s.store.(rows := ReopenedRows(s.store.rows, Affected(plan, key))), Idle)
    case OperatorSkip(key, reason) =>
      Committed(WithRow(s.store, key,
                        SkipRow(s.store.rows[key], if reason != "" then reason else "skipped by operator", true)), Idle)
  }

  /** A control that is refused, or a step that does not apply, changes nothing. */
  ghost function Step(plan: Plan, cfg: Config, s: Sys, e: Event): Sys {
    if Enabled(plan, cfg, s, e) then Effect(plan, cfg, s, e) else s
  }

  ghost function Steps(plan: Plan, cfg: Config, s: Sys, events: seq<Event>): Sys {
    if events == [] then s
    else Step(plan, cfg, Steps(plan, cfg, s, events[..|events| - 1]), events[|events| - 1])
  }

  const NEW_ROW := Row(Waiting, JObj(map[]), None, None, 0, [], [], false)

  /** What `create_workflow` leaves behind. */
  function Created(plan: Plan): Sys {
    var store := Store(Pending, map k | k in NodeKeys(plan) :: NEW_ROW, 0.0, false);
    Sys(store, store, Idle)
  }

  ghost function History(plan: Plan, cfg: Config, events: seq<Event>): Sys {
    Steps(plan, cfg, Created(plan), events)
  }
}
