/** What every state of the machine satisfies, whatever the order of batches, repairs, crashes,
    resumes and operator controls. */
module Invariants {
  import opened Collections
  import opened Graphs
  import opened Conditions
  import opened Plans
  import opened Protocol

  // ---- reading through the same sources -----------------------------------------

  ghost predicate SameAt(v: View, w: View, key: Key) {
    && (key in v.skips <==> key in w.skips)
    && (key in v.results <==> key in w.results)
    && (key in v.results ==> v.results[key] == w.results[key])
  }

  /** Two views that agree on the sources of a node's edges. */
  ghost predicate SourcesAgree(plan: Plan, v: View, w: View, key: Key) {
    forall e :: e in plan.edges && e.target == key ==> SameAt(v, w, e.source)
  }

  lemma {:induction false} ContributionsAgree(edges: seq<Edge>, v: View, w: View, key: Key)
    requires forall e :: e in edges && e.target == key ==> SameAt(v, w, e.source)
    ensures Contributions(edges, v, key) == Contributions(edges, w, key)
  {
    if edges != [] {
      assert edges[0] in edges;
      ContributionsAgree(edges[1..], v, w, key);
    }
  }

  lemma {:induction false} ComplaintsAgree(incoming: seq<Edge>, v: View, w: View)
    requires forall e :: e in incoming ==> SameAt(v, w, e.source)
    ensures Complaints(incoming, v) == Complaints(incoming, w)
  {
    if incoming != [] {
      assert SameAt(v, w, incoming[0].source);
      ComplaintsAgree(incoming[1..], v, w);
    }
  }

  /** Inputs, verdict and readiness depend on nothing but a node's direct dependencies. */
  lemma VerdictsAreLocal(plan: Plan, v: View, w: View, node: Node)
    requires SourcesAgree(plan, v, w, node.key)
    ensures UpstreamFor(plan, v, node.key) == UpstreamFor(plan, w, node.key)
    ensures SkipReason(plan, v, node) == SkipReason(plan, w, node)
    ensures DependenciesResolved(plan, v, node.key) == DependenciesResolved(plan, w, node.key)
  {
    ContributionsAgree(plan.edges, v, w, node.key);
    ComplaintsAgree(Incoming(plan.edges, node.key), v, w);
    forall e | e in plan.edges && e.target == node.key
      ensures Resolved(v, e.source) == Resolved(w, e.source)
    {
      assert SameAt(v, w, e.source);
    }
  }

  predicate Satisfied(e: Edge, v: View) {
    && e.source !in v.skips && e.source in v.results
    && (e.condition.Some? ==> Holds(e.condition.value, v.results[e.source]))
  }

  lemma {:induction false} CountComplaints(incoming: seq<Edge>, v: View)
    ensures Complaints(incoming, v) == [] <==> forall e :: e in incoming ==> Satisfied(e, v)
    ensures |Complaints(incoming, v)| < |incoming| <==> exists e :: e in incoming && Satisfied(e, v)
  {
    if incoming != [] {
      CountComplaints(incoming[1..], v);
      assert Complaint(incoming[0], v).None? <==> Satisfied(incoming[0], v);
      assert incoming == [incoming[0]] + incoming[1..];
    }
  }

  /** A node runs exactly when its join policy is met by its incoming edges. */
  lemma RunsExactlyWhenJoined(plan: Plan, v: View, node: Node)
    ensures SkipReason(plan, v, node).None? <==>
      || (forall e :: e in plan.edges ==> e.target != node.key)
      || (node.joinPolicy == Any && exists e :: e in plan.edges && e.target == node.key && Satisfied(e, v))
      || (node.joinPolicy == All && forall e :: e in plan.edges && e.target == node.key ==> Satisfied(e, v))
  {
    var incoming := Incoming(plan.edges, node.key);
    CountComplaints(incoming, v);
    if incoming != [] {
      assert incoming[0] in plan.edges;
    }
  }

  /** The edge hands a payload to `key`: it ends there, passes payloads, and its source has a result. */
  predicate Hands(e: Edge, v: View, key: Key) {
    e.target == key && e.passPayload && e.source in v.results
  }

  /** `u` is what edge number n hands over. */
  ghost predicate CameBy(edges: seq<Edge>, v: View, key: Key, u: Upstream, n: nat) {
    n < |edges| && Hands(edges[n], v, key) && u == Upstream(edges[n].source, v.results[edges[n].source])
  }

  ghost predicate Rising(from: seq<nat>) {
    forall i, j :: 0 <= i < j < |from| ==> from[i] < from[j]
  }

  /** The inputs, one for each edge that hands one over, in the order of the edges: `from[i]` is the edge
      that entry i came by. */
  ghost predicate GivenBy(edges: seq<Edge>, v: View, key: Key, inputs: seq<Upstream>, from: seq<nat>) {
    && |from| == |inputs|
    && (forall i :: 0 <= i < |from| ==> CameBy(edges, v, key, inputs[i], from[i]))
    && Rising(from)
    && (forall n: nat :: n < |edges| && Hands(edges[n], v, key) ==> n in from)
  }

  function Later(from: seq<nat>): (later: seq<nat>)
    ensures |later| == |from| && forall i :: 0 <= i < |from| ==> later[i] == from[i] + 1
  {
    seq(|from|, i requires 0 <= i < |from| => from[i] + 1)
  }

  lemma CameByLater(edges: seq<Edge>, v: View, key: Key, u: Upstream, n: nat)
    requires edges != [] && CameBy(edges[1..], v, key, u, n)
    ensures CameBy(edges, v, key, u, n + 1)
  {
  }

  lemma FoundLater(from: seq<nat>, n: nat)
    requires n > 0 && n - 1 in from
    ensures n in Later(from)
  {
    var i :| 0 <= i < |from| && from[i] == n - 1;
    assert Later(from)[i] == n;
  }

  /** What the first edge does not change: every later entry moves on by one. */
  lemma GivenLater(edges: seq<Edge>, v: View, key: Key, inputs: seq<Upstream>, from: seq<nat>)
    requires edges != [] && GivenBy(edges[1..], v, key, inputs, from)
    ensures |Later(from)| == |inputs| && Rising(Later(from))
    ensures forall i :: 0 <= i < |inputs| ==> CameBy(edges, v, key, inputs[i], Later(from)[i])
    ensures forall n: nat :: 0 < n < |edges| && Hands(edges[n], v, key) ==> n in Later(from)
    ensures forall n :: n in Later(from) ==> n > 0
  {
    hide Hands, CameBy;
    forall i | 0 <= i < |inputs|
      ensures CameBy(edges, v, key, inputs[i], Later(from)[i])
    {
      CameByLater(edges, v, key, inputs[i], from[i]);
    }
    forall n: nat | 0 < n < |edges| && Hands(edges[n], v, key)
      ensures n in Later(from)
    {
      assert edges[1..][n - 1] == edges[n];
      FoundLater(from, n);
    }
  }

  lemma GivenFirst(edges: seq<Edge>, v: View, key: Key, u: Upstream, inputs: seq<Upstream>, later: seq<nat>)
    requires |later| == |inputs| && Rising(later) && CameBy(edges, v, key, u, 0)
    requires forall i :: 0 <= i < |inputs| ==> CameBy(edges, v, key, inputs[i], later[i])
    requires forall n: nat :: 0 < n < |edges| && Hands(edges[n], v, key) ==> n in later
    requires forall n :: n in later ==> n > 0
    ensures GivenBy(edges, v, key, [u] + inputs, [0] + later)
  {
    hide Hands, CameBy;
    var from := [0] + later;
    forall i | 0 <= i < |from|
      ensures CameBy(edges, v, key, ([u] + inputs)[i], from[i])
    {
      if i > 0 {
        assert from[i] == later[i - 1] && ([u] + inputs)[i] == inputs[i - 1];
      }
    }
    forall n: nat | n < |edges| && Hands(edges[n], v, key)
      ensures n in from
    {
      assert n == 0 ==> from[0] == n;
    }
    forall i, j | 0 <= i < j < |from|
      ensures from[i] < from[j]
    {
      assert from[j] == later[j - 1] && later[j - 1] in later;
      assert i > 0 ==> from[i] == later[i - 1];
    }
  }

  lemma {:induction false} ContributionsAreGiven(edges: seq<Edge>, v: View, key: Key) returns (from: seq<nat>)
    ensures GivenBy(edges, v, key, Contributions(edges, v, key), from)
  {
    from := [];
    if edges != [] {
      var rest := ContributionsAreGiven(edges[1..], v, key);
      var inputs := Contributions(edges[1..], v, key);
      GivenLater(edges, v, key, inputs, rest);
      from := Later(rest);
      if Hands(edges[0], v, key) {
        GivenFirst(edges, v, key, Upstream(edges[0].source, v.results[edges[0].source]), inputs, from);
        from := [0] + from;
      } else {
        assert Contributions(edges, v, key) == inputs;
      }
    }
  }

  /** A node is given one payload for each payload-passing edge from a node with a result, in edge order:
      that node's result, and nothing else. */
  lemma UpstreamExactly(plan: Plan, v: View, key: Key) returns (from: seq<nat>)
    ensures GivenBy(plan.edges, v, key, UpstreamFor(plan, v, key), from)
    ensures forall u :: u in UpstreamFor(plan, v, key) <==>
      exists e :: e in plan.edges && Hands(e, v, key) && u == Upstream(e.source, v.results[e.source])
  {
    from := ContributionsAreGiven(plan.edges, v, key);
    var inputs := UpstreamFor(plan, v, key);
    forall u
      ensures u in inputs <==>
        exists e :: e in plan.edges && Hands(e, v, key) && u == Upstream(e.source, v.results[e.source])
    {
      if u in inputs {
        var i :| 0 <= i < |inputs| && inputs[i] == u;
        assert plan.edges[from[i]] in plan.edges;
      }
      if e :| e in plan.edges && Hands(e, v, key) && u == Upstream(e.source, v.results[e.source]) {
        var n: nat :| n < |plan.edges| && plan.edges[n] == e;
        var i :| 0 <= i < |from| && from[i] == n;
        assert inputs[i] == u;
      }
    }
  }

  /** Raising depends on direct dependencies too. */
  lemma ThrowsAreLocal(plan: Plan, v: View, w: View, key: Key)
    requires SourcesAgree(plan, v, w, key)
    ensures VerdictThrows(plan, v, key) == VerdictThrows(plan, w, key)
  {
    hide Throws;
    forall e | e in plan.edges && e.target == key
      ensures EdgeThrows(e, v) == EdgeThrows(e, w)
    {
      assert SameAt(v, w, e.source);
    }
  }

  /** The verdict sent back is the first, in plan order, that fires or raises. The condition is read before
      the repairs are counted, so a verdict whose repairs are spent can stop the loop by raising alone. */
  lemma {:induction false} FirstFiringIsFirst(cfg: Config, run: Run, nodes: seq<Node>) returns (at: nat)
    requires FirstFiring(cfg, run, nodes).Some?
    ensures at < |nodes| && FirstFiring(cfg, run, nodes) == Some(nodes[at]) && Stops(cfg, run, nodes[at])
    ensures forall i :: 0 <= i < at ==> !Stops(cfg, run, nodes[i])
    ensures Repairs(run, nodes[at].feedback.value.target) >= cfg.cycles ==>
      Throws(nodes[at].feedback.value.condition, run.outputs[nodes[at].key].payload)
  {
    hide Throws;
    at := 0;
    if !Stops(cfg, run, nodes[0]) {
      var next := FirstFiringIsFirst(cfg, run, nodes[1..]);
      at := next + 1;
      forall i | 0 <= i < at
        ensures !Stops(cfg, run, nodes[i])
      {
        assert i > 0 ==> nodes[i] == nodes[1..][i - 1];
      }
    }
  }

  /** A plan whose conditions are all total never raises, at an edge or in a verdict sent back. */
  lemma TotalPlansNeverThrow(plan: Plan, cfg: Config, v: View, run: Run)
    requires forall e :: e in plan.edges && e.condition.Some? ==> TotalCondition(UNICODE, e.condition.value)
    requires forall n :: n in plan.nodes && n.feedback.Some? ==> TotalCondition(UNICODE, n.feedback.value.condition)
    requires forall k :: k in v.results ==> v.results[k].JObj?
    requires forall k :: k in run.outputs ==> run.outputs[k].payload.JObj?
    ensures !RoundThrows(plan, v)
    ensures forall n :: n in plan.nodes && HasVerdict(run, n) ==>
      !Throws(n.feedback.value.condition, run.outputs[n.key].payload)
  {
    hide Evaluate, TotalCondition;
    forall e | e in plan.edges && e.condition.Some? && e.source in v.results
      ensures !Throws(e.condition.value, v.results[e.source])
    {
      TotalExactly(UNICODE, e.condition.value);
    }
    forall n | n in plan.nodes && HasVerdict(run, n)
      ensures !Throws(n.feedback.value.condition, run.outputs[n.key].payload)
    {
      TotalExactly(UNICODE, n.feedback.value.condition);
    }
  }

  /** The text a reopened node gets is cut off at the limit and begins with the rule's message. */
  lemma FeedbackTextIsBounded(cfg: Config, rule: FeedbackRule, payload: Json)
    ensures |FeedbackText(cfg, rule, payload)| <= MAX_FEEDBACK + |"\n[truncated]"|
    ensures |rule.message| <= MAX_FEEDBACK ==> rule.message <= FeedbackText(cfg, rule, payload)
  {
    hide Rendered, DetailOf;
  }

  /** There is no detail to write out: none was asked for, or it is null or blank text. */
  predicate NothingToAdd(detail: Lookup) {
    detail == Found(JNull) || (detail.Found? && detail.value.JStr? && IsBlank(detail.value.text))
  }

  /** The message goes out alone exactly when there is no detail, a null one, or blank text, if it is short
      enough to go out whole; a longer one exactly when it is what cutting it off gives. In particular it
      does not go out alone when the detail is missing: then the lookup's sentinel is written out with it. */
  lemma MessageAloneExactly(cfg: Config, rule: FeedbackRule, payload: Json)
    requires forall detail :: cfg.render(detail) != ""
    ensures FeedbackText(cfg, rule, payload) == rule.message <==>
      if |rule.message| <= MAX_FEEDBACK then NothingToAdd(DetailOf(rule, payload))
      else rule.message[MAX_FEEDBACK..] == "\n[truncated]"
  {
    hide DetailOf;
    var detail := DetailOf(rule, payload);
    var rendered := Rendered(cfg, detail);
    assert rendered == "" <==> NothingToAdd(detail) by {
      assert forall text: string :: text == "" ==> IsBlank(text);
    }
    hide Rendered;
    var text := if rendered == "" then rule.message else rule.message + "\n\n" + rendered;
    if |rule.message| > MAX_FEEDBACK {
      assert text[..MAX_FEEDBACK] == rule.message[..MAX_FEEDBACK];
      assert rule.message == rule.message[..MAX_FEEDBACK] + rule.message[MAX_FEEDBACK..];
    } else if rendered != "" {
      assert |text| > |rule.message|;
      if |text| > MAX_FEEDBACK {
        assert |FeedbackText(cfg, rule, payload)| > |rule.message|;
      }
    }
  }

  /** An empty verdict is enough: whatever field the rule points at, the sentinel is sent on. */
  lemma MissingDetailIsWrittenOut(cfg: Config, rule: FeedbackRule)
    requires rule.detailPath != "" && cfg.render(Missing) != ""
    requires |rule.message| + 2 + |cfg.render(Missing)| <= MAX_FEEDBACK
    ensures DetailOf(rule, JObj(map[])) == Missing
    ensures FeedbackText(cfg, rule, JObj(map[])) == rule.message + "\n\n" + cfg.render(Missing) != rule.message
  {
    hide Split;
    assert Descend(UNICODE, JObj(map[]), Split(rule.detailPath)[0]) == Missing;
  }

  /** The detail found in the field that the rule points at follows the message after a blank line: a text as
      it is, and any other value but null as it is written out. What is longer than 2000 characters is cut off
      there, and says so. */
  lemma FeedbackCarriesDetail(cfg: Config, rule: FeedbackRule, fields: map<string, Json>)
    requires rule.detailPath != "" && '.' !in rule.detailPath && rule.detailPath in fields
    requires fields[rule.detailPath] != JNull
    ensures var detail := fields[rule.detailPath];
      var words := if detail.JStr? then detail.text else cfg.render(Found(detail));
      var text := rule.message + "\n\n" + words;
      !(detail.JStr? && IsBlank(words)) && words != "" ==>
        FeedbackText(cfg, rule, JObj(fields)) == if |text| <= 2000 then text else text[..2000] + "\n[truncated]"
  {
    hide Split, Follow;
    FieldIsFollowed(fields, rule.detailPath);
  }

  // ---- the invariants of the durable rows -----------------------------------------

  ghost predicate Keyed(plan: Plan, rows: Rows) {
    rows.Keys == NodeKeys(plan)
  }

  /** The attempt numbers of a row are exactly one to `attempts`; a completed node has one; a decision sits
      only on a gated node, and a gated node has a log only once it was approved. */
  ghost predicate RowKept(node: Node, row: Row) {
    && |row.log| == row.attempts
    && (forall i :: 0 <= i < |row.log| ==> row.log[i].number == i + 1)
    && (row.status == Completed ==> row.log != [])
    && (row.status == AwaitingApproval ==> node.requiresApproval && row.approval.None?)
    && (row.approval.Some? ==> node.requiresApproval)
    && (row.approval.Some? && !row.approval.value.approved ==> row.approval.value.reason != "")
    && (node.requiresApproval && row.log != [] ==> row.approval.Some? && row.approval.value.approved)
  }

  ghost predicate Kept(plan: Plan, rows: Rows) {
    forall k :: k in rows && k in NodeKeys(plan) ==> RowKept(NodeOf(plan, k), rows[k])
  }

  /** A stored result or engine-made skip is the one the stored rows call for now. */
  ghost predicate FreshAt(plan: Plan, v: View, row: Row, key: Key)
    requires key in NodeKeys(plan)
  {
    && (row.status == Completed ==>
          && DependenciesResolved(plan, v, key)
          && SkipReason(plan, v, NodeOf(plan, key)) == None
          && row.basis == UpstreamFor(plan, v, key))
    && (row.status == Skipped && !row.byHuman ==>
          && DependenciesResolved(plan, v, key)
          && row.skipReason.Some?
          && SkipReason(plan, v, NodeOf(plan, key)) == row.skipReason)
  }

  ghost predicate Fresh(plan: Plan, rows: Rows) {
    forall k :: k in rows && k in NodeKeys(plan) ==> FreshAt(plan, StoredView(rows), rows[k], k)
  }

  // ---- how each change of rows moves the view ------------------------------------

  predicate Settled(status: NodeStatus) {
    status == Completed || status == Skipped
  }

  lemma ResolvedMeansSettled(rows: Rows, key: Key)
    ensures Resolved(StoredView(rows), key) <==> key in rows && Settled(rows[key].status)
  {
  }

  /** Changes confined to unsettled rows move nothing the scheduler reads. */
  lemma UnsettledChange(plan: Plan, rows: Rows, rows': Rows)
    requires rows'.Keys == rows.Keys && Fresh(plan, rows)
    requires forall k :: k in rows ==>
      rows'[k] == rows[k] || (!Settled(rows[k].status) && !Settled(rows'[k].status))
    ensures StoredView(rows') == StoredView(rows) && Fresh(plan, rows')
  {
    assert StoredView(rows').results == StoredView(rows).results;
    assert StoredView(rows').skips == StoredView(rows).skips;
  }

  /** A row stays fresh when the row and what it depends on stay as they were. */
  lemma StaysFresh(plan: Plan, v: View, w: View, row: Row, row': Row, key: Key)
    requires key in NodeKeys(plan) && FreshAt(plan, v, row, key)
    requires row'.status == row.status && row'.basis == row.basis
    requires row'.skipReason == row.skipReason && row'.byHuman == row.byHuman
    requires DependenciesResolved(plan, v, key) ==> SourcesAgree(plan, v, w, key)
    ensures FreshAt(plan, w, row', key)
  {
    if DependenciesResolved(plan, v, key) {
      VerdictsAreLocal(plan, v, w, NodeOf(plan, key));
    }
  }

  /** Settling unresolved rows leaves alone every node whose dependencies were already resolved. */
  lemma SettlingKeepsSources(plan: Plan, v: View, w: View, key: Key)
    requires DependenciesResolved(plan, v, key)
    requires forall k :: Resolved(v, k) ==> SameAt(v, w, k)
    ensures SourcesAgree(plan, v, w, key)
  {
  }

  /** A ruling touches unresolved rows only, and settles one exactly when it skips it. */
  lemma RuledAt(plan: Plan, rows: Rows, key: Key)
    requires Keyed(plan, rows) && Kept(plan, rows) && key in rows
    ensures var v := StoredView(rows); var row := RuledRow(RuleFor(plan, v, rows, key), rows[key]);
      && (Settled(rows[key].status) ==> row == rows[key])
      && (row.status == Completed <==> rows[key].status == Completed)
      && (row.status == Skipped && rows[key].status != Skipped <==> key in NewSkips(plan, v, rows))
      && (key in NewSkips(plan, v, rows) ==> ReasonOf(row) == NewSkips(plan, v, rows)[key])
  {
    ResolvedMeansSettled(rows, key);
    assert RowKept(NodeOf(plan, key), rows[key]);
  }

  lemma RuledView(plan: Plan, rows: Rows)
    requires Keyed(plan, rows) && Kept(plan, rows)
    ensures var v := StoredView(rows); var w := StoredView(RuledRows(plan, v, rows));
      && w.results == v.results
      && w.skips == v.skips + NewSkips(plan, v, rows)
  {
    hide RuleFor, NodeKeys, Kept, ReasonOf;
    var v := StoredView(rows);
    var rows' := RuledRows(plan, v, rows);
    var w := StoredView(rows');
    var skips := v.skips + NewSkips(plan, v, rows);
    forall k
      ensures k in w.results <==> k in v.results
      ensures k in v.results ==> w.results[k] == v.results[k]
      ensures k in w.skips <==> k in skips
      ensures k in skips ==> w.skips[k] == skips[k]
    {
      if k in rows {
        RuledAt(plan, rows, k);
      }
    }
  }

  /** Rulings add skips of unresolved nodes only. */
  lemma NewSkipsUnresolved(plan: Plan, v: View, rows: Rows, w: View)
    requires w == View(v.results, v.skips + NewSkips(plan, v, rows))
    ensures forall k :: Resolved(v, k) ==> SameAt(v, w, k)
  {
  }

  lemma RuledFreshAt(plan: Plan, rows: Rows, key: Key, v: View, w: View)
    requires Keyed(plan, rows) && key in rows && v == StoredView(rows) && FreshAt(plan, v, rows[key], key)
    requires forall k :: Resolved(v, k) ==> SameAt(v, w, k)
    ensures FreshAt(plan, w, RuledRow(RuleFor(plan, v, rows, key), rows[key]), key)
  {
    var row := RuledRow(RuleFor(plan, v, rows, key), rows[key]);
    if DependenciesResolved(plan, v, key) {
      SettlingKeepsSources(plan, v, w, key);
      VerdictsAreLocal(plan, v, w, NodeOf(plan, key));
    }
    match RuleFor(plan, v, rows, key)
    case NotReady => StaysFresh(plan, v, w, rows[key], row, key);
    case _ =>
  }

  lemma RuledFresh(plan: Plan, rows: Rows)
    requires Keyed(plan, rows) && Kept(plan, rows) && Fresh(plan, rows)
    ensures Fresh(plan, RuledRows(plan, StoredView(rows), rows))
  {
    var v := StoredView(rows);
    var w := StoredView(RuledRows(plan, v, rows));
    RuledView(plan, rows);
    NewSkipsUnresolved(plan, v, rows, w);
    forall k | k in rows
      ensures FreshAt(plan, w, RuledRows(plan, v, rows)[k], k)
    {
      RuledFreshAt(plan, rows, k, v, w);
    }
  }

  lemma RuledRowKept(plan: Plan, v: View, rows: Rows, key: Key)
    requires key in rows && key in NodeKeys(plan) && RowKept(NodeOf(plan, key), rows[key])
    ensures RowKept(NodeOf(plan, key), RuledRow(RuleFor(plan, v, rows, key), rows[key]))
  {
  }

  lemma RuledKept(plan: Plan, v: View, rows: Rows)
    requires Kept(plan, rows)
    ensures Kept(plan, RuledRows(plan, v, rows))
  {
    hide NodeKeys, NodeOf, RuleFor, RuledRow, RowKept;
    forall k | k in rows && k in NodeKeys(plan)
      ensures RowKept(NodeOf(plan, k), RuledRows(plan, v, rows)[k])
    {
      RuledRowKept(plan, v, rows, k);
    }
  }

  // ---- a dispatched batch -----------------------------------------------------------

  /** Every dispatched node was called for, was given what its dependencies now hold, and, if gated,
      was approved. */
  ghost predicate DispatchedAt(plan: Plan, rows: Rows, key: Key, input: AgentInput) {
    var v := StoredView(rows);
    && key in rows && key in NodeKeys(plan) && rows[key].status == Running
    && DependenciesResolved(plan, v, key)
    && SkipReason(plan, v, NodeOf(plan, key)) == None
    && input.upstream == UpstreamFor(plan, v, key)
    && (NodeOf(plan, key).requiresApproval ==> rows[key].approval.Some? && rows[key].approval.value.approved)
  }

  ghost predicate DispatchedWell(plan: Plan, rows: Rows, inputs: map<Key, AgentInput>) {
    forall k :: k in inputs ==> DispatchedAt(plan, rows, k, inputs[k])
  }

  /** The outcomes are consistent with the attempts already on the rows. */
  ghost predicate Numbered(rows: Rows, results: Results) {
    forall k :: k in results ==>
      && k in rows && results[k] != []
      && (forall i :: 0 <= i < |results[k]| ==> results[k][i].attempt == rows[k].attempts + 1 + i)
      && (forall i :: 0 <= i < |results[k]| - 1 ==> results[k][i].status != Succeeded)
  }

  /** Folding `record_execution` over the attempts appends their numbers and keeps the last verdict. */
  lemma {:induction false} RecordAllEffect(row: Row, outs: seq<Output>, upstream: seq<Upstream>)
    requires forall i :: 0 <= i < |outs| ==> outs[i].attempt == row.attempts + 1 + i
    requires forall i :: 0 <= i < |outs| - 1 ==> outs[i].status != Succeeded
    requires |row.log| == row.attempts && forall i :: 0 <= i < |row.log| ==> row.log[i].number == i + 1
    ensures var row' := RecordAll(row, outs, upstream);
      && row'.attempts == row.attempts + |outs| == |row'.log|
      && (forall i :: 0 <= i < |row'.log| ==> row'.log[i].number == i + 1)
      && row'.approval == row.approval
      && (outs != [] && Last(outs).status == Succeeded ==>
            row'.status == Completed && row'.payload == Last(outs).payload && row'.basis == upstream)
  {
    if outs != [] {
      RecordAllEffect(row, outs[..|outs| - 1], upstream);
    }
  }

  lemma RecordedEffect(plan: Plan, rows: Rows, inputs: map<Key, AgentInput>, results: Results, key: Key)
    requires Keyed(plan, rows) && Kept(plan, rows)
    requires DispatchedWell(plan, rows, inputs) && Numbered(rows, results) && results.Keys == inputs.Keys
    requires key in inputs
    ensures var row' := RecordedRows(rows, inputs, results)[key];
      && RowKept(NodeOf(plan, key), row')
      && row'.attempts == rows[key].attempts + |results[key]|
      && row'.approval == rows[key].approval
      && (Last(results[key]).status == Succeeded ==>
            && row'.status == Completed && row'.payload == Last(results[key]).payload
            && row'.basis == inputs[key].upstream)
      && (Last(results[key]).status != Succeeded ==> row'.status == Failed)
  {
    assert DispatchedAt(plan, rows, key, inputs[key]);
    assert RowKept(NodeOf(plan, key), rows[key]);
    RecordAllEffect(rows[key], results[key], inputs[key].upstream);
  }

  function SuccessesOf(results: Results): map<Key, Json> {
    map k | k in results && results[k] != [] && Last(results[k]).status == Succeeded :: Last(results[k]).payload
  }

  ghost predicate RecordingFits(plan: Plan, rows: Rows, inputs: map<Key, AgentInput>, results: Results) {
    && Keyed(plan, rows) && Kept(plan, rows)
    && DispatchedWell(plan, rows, inputs) && Numbered(rows, results) && results.Keys == inputs.Keys
  }

  lemma RecordedKept(plan: Plan, rows: Rows, inputs: map<Key, AgentInput>, results: Results)
    requires RecordingFits(plan, rows, inputs, results)
    ensures Kept(plan, RecordedRows(rows, inputs, results))
  {
    forall k | k in rows
      ensures RowKept(NodeOf(plan, k), RecordedRows(rows, inputs, results)[k])
    {
      if k in inputs {
        RecordedEffect(plan, rows, inputs, results, k);
      }
    }
  }

  lemma RecordedAt(plan: Plan, rows: Rows, inputs: map<Key, AgentInput>, results: Results, key: Key)
    requires RecordingFits(plan, rows, inputs, results) && key in rows
    ensures GainsResult(rows[key], RecordedRows(rows, inputs, results)[key], SuccessesOf(results), key)
    ensures Settled(rows[key].status) ==> key !in results
  {
    if key in inputs {
      assert DispatchedAt(plan, rows, key, inputs[key]);
      RecordedEffect(plan, rows, inputs, results, key);
    }
  }

  predicate GainsResult(row: Row, row': Row, added: map<Key, Json>, key: Key) {
    && (row'.status == Completed <==> row.status == Completed || key in added)
    && (key in added ==> row'.payload == added[key])
    && (row'.status == Skipped <==> row.status == Skipped)
    && (Settled(row.status) ==> row' == row && key !in added)
  }

  lemma ViewGains(rows: Rows, rows': Rows, added: map<Key, Json>)
    requires rows'.Keys == rows.Keys && added.Keys <= rows.Keys
    requires forall k :: k in rows ==> GainsResult(rows[k], rows'[k], added, k)
    ensures StoredView(rows').results == StoredView(rows).results + added
    ensures StoredView(rows').skips == StoredView(rows).skips
  {
  }

  lemma RecordedView(plan: Plan, rows: Rows, inputs: map<Key, AgentInput>, results: Results)
    requires RecordingFits(plan, rows, inputs, results)
    ensures var v := StoredView(rows); var w := StoredView(RecordedRows(rows, inputs, results));
      && w.results == v.results + SuccessesOf(results) && w.skips == v.skips
  {
    forall k | k in rows
      ensures GainsResult(rows[k], RecordedRows(rows, inputs, results)[k], SuccessesOf(results), k)
    {
      RecordedAt(plan, rows, inputs, results, k);
    }
    ViewGains(rows, RecordedRows(rows, inputs, results), SuccessesOf(results));
  }

  /** Gaining results for unresolved nodes leaves every resolved node as it was. */
  lemma GainsKeepResolved(v: View, w: View, added: map<Key, Json>)
    requires w == View(v.results + added, v.skips)
    requires forall k :: Resolved(v, k) ==> k !in added
    ensures forall k :: Resolved(v, k) ==> SameAt(v, w, k)
  {
  }

  lemma SuccessesUnresolved(plan: Plan, rows: Rows, inputs: map<Key, AgentInput>, results: Results, w: View)
    requires RecordingFits(plan, rows, inputs, results)
    requires w == View(StoredView(rows).results + SuccessesOf(results), StoredView(rows).skips)
    ensures forall k :: Resolved(StoredView(rows), k) ==> SameAt(StoredView(rows), w, k)
  {
    hide RecordingFits, StoredView, SameAt;
    forall k | Resolved(StoredView(rows), k)
      ensures k !in SuccessesOf(results)
    {
      ResolvedMeansSettled(rows, k);
      RecordedAt(plan, rows, inputs, results, k);
    }
    GainsKeepResolved(StoredView(rows), w, SuccessesOf(results));
  }

  lemma RecordedFreshAt(plan: Plan, rows: Rows, inputs: map<Key, AgentInput>, results: Results, key: Key)
    requires RecordingFits(plan, rows, inputs, results) && Fresh(plan, rows) && key in rows
    ensures var rows' := RecordedRows(rows, inputs, results); FreshAt(plan, StoredView(rows'), rows'[key], key)
  {
    var rows' := RecordedRows(rows, inputs, results);
    var v, w := StoredView(rows), StoredView(rows');
    RecordedView(plan, rows, inputs, results);
    SuccessesUnresolved(plan, rows, inputs, results, w);
    if DependenciesResolved(plan, v, key) {
      SettlingKeepsSources(plan, v, w, key);
      VerdictsAreLocal(plan, v, w, NodeOf(plan, key));
    }
    if key in inputs {
      assert DispatchedAt(plan, rows, key, inputs[key]);
      RecordedEffect(plan, rows, inputs, results, key);
    } else {
      StaysFresh(plan, v, w, rows[key], rows'[key], key);
    }
  }

  lemma RecordedFresh(plan: Plan, rows: Rows, inputs: map<Key, AgentInput>, results: Results)
    requires RecordingFits(plan, rows, inputs, results) && Fresh(plan, rows)
    ensures Fresh(plan, RecordedRows(rows, inputs, results))
  {
    forall k | k in rows
      ensures FreshAt(plan, StoredView(RecordedRows(rows, inputs, results)), RecordedRows(rows, inputs, results)[k], k)
    {
      RecordedFreshAt(plan, rows, inputs, results, k);
    }
  }

  // ---- reopening and skipping --------------------------------------------------------

  lemma ReopenedView(rows: Rows, keys: set<Key>)
    ensures var v := StoredView(rows); var w := StoredView(ReopenedRows(rows, keys));
      w.results == v.results - keys && w.skips == v.skips - keys
  {
    var v, w := StoredView(rows), StoredView(ReopenedRows(rows, keys));
    assert w.results == v.results - keys;
    assert w.skips == v.skips - keys;
  }

  /** Reopening a set with nothing downstream of it left behind keeps every remaining result fresh. */
  lemma ReopenedFresh(plan: Plan, rows: Rows, keys: set<Key>)
    requires Fresh(plan, rows) && ClosedUnder(ArcsOf(plan.edges), keys)
    ensures Fresh(plan, ReopenedRows(rows, keys))
  {
    var rows' := ReopenedRows(rows, keys);
    var v, w := StoredView(rows), StoredView(rows');
    ReopenedView(rows, keys);
    forall k | k in rows' && k in NodeKeys(plan)
      ensures FreshAt(plan, w, rows'[k], k)
    {
      if k !in keys {
        forall e | e in plan.edges && e.target == k
          ensures SameAt(v, w, e.source)
        {
          assert (e.source, e.target) in ArcsOf(plan.edges);
        }
        StaysFresh(plan, v, w, rows[k], rows'[k], k);
      }
    }
  }

  /** A person may skip any unresolved node, resolved dependencies or not. */
  lemma HumanSkipFresh(plan: Plan, rows: Rows, key: Key, row: Row)
    requires Fresh(plan, rows) && key in rows && !Settled(rows[key].status)
    requires row.status == Skipped && row.byHuman
    ensures Fresh(plan, rows[key := row])
  {
    var rows' := rows[key := row];
    var v, w := StoredView(rows), StoredView(rows');
    assert forall k :: Resolved(v, k) ==> SameAt(v, w, k);
    forall k | k in rows' && k in NodeKeys(plan)
      ensures FreshAt(plan, w, rows'[k], k)
    {
      if k != key {
        if DependenciesResolved(plan, v, k) {
          SettlingKeepsSources(plan, v, w, k);
        }
        StaysFresh(plan, v, w, rows[k], rows'[k], k);
      }
    }
  }
}
