# Agent Mesh workflow core: a verified model

Agent Mesh plans a graph of agents for a request, stores it, and runs it: ready nodes are skipped, held for
a person's approval, or dispatched as a batch; results are recorded; a failing verdict may reopen an earlier
node together with everything computed from it. This project models that core in Dafny and proves what its
documentation promises about whole runs.

**How the model is built.** The engine is a state machine (`Protocol`): a state holds the database session,
the last commit and the memory of the run in progress; a step is one stretch of the engine between two
commits, an operator control, a crash or an interruption. A *history* is any sequence of such events from a
newly created workflow, with arbitrary attempt outcomes. Theorems are about every history; an exception in
the engine ends its run as a crash does. The engine's own methods are separate, imperative code over two classes
(`Repository.WorkflowRun`, `Repository.WorkflowRepository`) and are proved to make exactly the machine's steps
(`Engine`, `Service`), so what holds of histories holds of them. The remaining modules are one per source file.

| module | what it is |
|---|---|
| `Graphs`, `Collections` | walks, reachability, ranks; order and reordering of sequences |
| `Conditions`, `Plans` | edge conditions over JSON; plan validation, cycle search, descendants |
| `Protocol`, `Invariants`, `Histories`, `Soundness` | the state machine and its invariant, step by step |
| `Safety`, `Feedback`, `Budgets`, `Evaluation`, `Termination`, `Reordering` | the theorems about histories and runs |
| `Endings`, `Effects` | what each decision and each event does, in terms of rows, results and edges |
| `Rulings`, `Repository`, `Executor`, `Engine`, `Service` | the methods, each against a machine step |
| `Selection`, `Planner`, `Teams`, `Persistence` | choosing agents, building graphs, storing them |
| `RateLimiter`, `Layering` | the request limiter; the column layout of the front end |

`dafny verify dfyconfig.toml` checks everything.

**Where the code does not do what its comments or documentation say.** The model follows the code, and the
exact condition is proved in each case.

- Conditions are documented as total. They raise for a path part that `str.isdigit` accepts and `int` rejects
  (a superscript or circled digit, or more digits than the interpreter's default limit of 4300), and for
  `contains` with a list or mapping as the value looked up in a mapping: exactly then
  (`Conditions.TotalExactly`, for whatever character tables the interpreter has; `Conditions.SuperscriptRaises`).
  The conditions the planner writes are total (`Planner.PlannerConditionsAreTotal`), and a plan with total
  conditions never makes the engine raise (`Invariants.TotalPlansNeverThrow`).
- A fresh run starts from empty memory. That agrees with the store exactly when no node is completed or
  skipped (`Histories.FreshRunAgreesExactly`): an operator who skips a node of a pending workflow sees it run
  anyway (`Safety.SkippedWhilePendingRunsAnyway`). The run behaves exactly as if such skips had not been made
  (`Soundness.StepsAsIfNotSkipped`), so the theorems about runs hold of those histories too, and a crash and
  resume brings such a skip back.
- Feedback is documented as waiting for its node's next run, and repairs as bounded. Neither survives the run
  that holds it: a resume starts without waiting feedback and with no repair counted, so a crash or a
  cancellation right after a verdict was sent back loses the text (`Feedback.FeedbackLostInCrash`;
  `Feedback.SoleNodeForgets` is such a history). A resumed memory is the live one exactly when the run ignored
  no skip, no feedback waits and no repair is counted (`Safety.CrashThenResumeRestores`). Within a run the text
  reaches a node that had a result at once (`Feedback.FeedbackIsDelivered`), but not one that the engine skipped
  (`Feedback.FeedbackMissesSkippedNode`).
- Feedback is meant to carry the detail a verdict points at, or the message alone. When the path leads nowhere,
  the lookup's sentinel object is written out as if it were the detail (`Invariants.MessageAloneExactly`,
  `Invariants.MissingDetailIsWrittenOut`).
- The selection tie-break is documented as alphabetical. Between an id and a longer id that extends it, the
  longer one wins (`Selection.TieBreakIsAlphabeticalExactly`).
- Team compilation is documented to fall back to "always a valid DAG". It raises exactly when two agents share
  a role (`Teams.BuildTeam`, `Teams.SharedRoleNeverCompiles`).
- The per-agent ceilings are documented to keep a designed team within the cap. They do exactly when an equal
  slice reaches the upper clamp, or reaches the two-cent floor and is not rounded up to its fourth digit
  (`Teams.SlicesFitExactly`): three agents on two dollars get 2.0001 (`Teams.ThreeSlicesOfTwo`). Each agent may
  make two attempts under its ceiling, and over both the team stays within the cap exactly when a slice is
  at least twice the upper clamp (`Teams.AttemptsFitExactly`).
- A plan may validate and still be refused by the tables: for its keys, agent ids and edges exactly when a key or
  an agent id is longer than 64 characters or two edges join the same nodes (`Persistence.CreateWorkflow`,
  `Persistence.LongAgentIdIsNotStored`, `Persistence.ValidPlanMayNotStore`).
- `rankNodes` drops nodes exactly when an empty key is caught in a trap, because its fallback key is then falsy
  (`Layering.RankNodes`).
- A refused operator that waits for the advertised `Retry-After` may be refused again, because the wait is
  truncated (`RateLimiter.WaitSufficesExactly`, `RateLimiter.WaitFallsShort`).
- `AgentExecutor.execute` lists authentication failures among the errors that take a provider out, but
  `_can_fallback` has already stopped the loop on them; the model keeps both branches.

## Model

| member | source | states |
|---|---|---|
| Conditions.ResolvePath | backend/app/workflows/conditions.py:22-41 | Walking the dotted path gives the value found, the missing marker, or the exception of a bad index, under any table of decimal and other digits. |
| Conditions.PathsCompose | backend/app/workflows/conditions.py:22-41 | Following `p.q` is following `q` from where `p` leads, and ends where `p` ends otherwise. |
| Conditions.TotalExactly | backend/app/workflows/conditions.py:1-70 | Over all payloads and under any table of digits, a condition never raises exactly when no path part after the first passes `isdigit` but fails `int`, and `contains` does not look up a list or mapping. |
| Conditions.RaisingPayload | backend/app/workflows/conditions.py:102-109 | For any other condition there is an object payload that makes it raise. |
| Conditions.SuperscriptRaises | backend/app/workflows/conditions.py:32-36 | A concrete condition that raises: a superscript two as a list index. |
| Conditions.FieldIsFollowed | backend/app/workflows/conditions.py:22-41 | A path of one name leads to that field of an object, or nowhere. |
| Conditions.ItemIsFollowed | backend/app/workflows/conditions.py:32-36 | A number in decimal notation leads to that item of a list, or nowhere if the list is too short. |
| Conditions.LongIndexRaisesExactly | backend/app/workflows/conditions.py:32-36 | An index in ordinary digits raises exactly if it is longer than 4300 digits. |
| Conditions.NamesMissLists | backend/app/workflows/conditions.py:32-40 | An empty or non-numeric part leads nowhere in a list. |
| Conditions.OperatorsOnValue | backend/app/workflows/conditions.py:44-70 | Of a value that is there: exists holds and not_exists does not; is_true and is_false hold of JSON true and JSON false alone; eq and ne split the values by equality; empty and non_empty split them, null, false and empty text, list and object being the empty ones. |
| Conditions.OrderingsOnValue | backend/app/workflows/conditions.py:112-127 | The four orderings follow the order of the numbers and hold of nothing else, booleans included. |
| Conditions.ContainsOnValue | backend/app/workflows/conditions.py:102-109 | `contains` holds of a text with the text somewhere in it, a list with an equal item, and an object with that field, and of nothing else; it raises exactly for a list or object looked up in an object. |
| Conditions.OperatorsOnMissing | backend/app/workflows/conditions.py:44-70 | A missing value satisfies not_exists and empty and no other operator, and never raises. |
| Conditions.SameIsIdentity | backend/app/workflows/conditions.py:60-63 | Equality is identity once every boolean, however deep, is read as the number it equals. |
| Plans.CycleFinder.Visit | backend/app/schemas/workflow.py:238-248 | One visit either returns a walk along edges that meets its last key twice, or turns the key black after everything it points at, whitening nothing. |
| Plans.FindCycle | backend/app/schemas/workflow.py:226-253 | The colour search is sound and complete: nothing is reported exactly when some rank strictly rises along every edge, and a report is a walk whose last key occurs earlier in it. |
| Plans.Validate | backend/app/schemas/workflow.py:206-224 | Construction succeeds exactly for non-empty, distinctly keyed, acyclic plans over known nodes, and each error names a real fault. |
| Plans.Expand | backend/app/schemas/workflow.py:274-278 | One popped key marks all its children and pushes exactly the unseen ones. |
| Plans.DescendantsOf | backend/app/schemas/workflow.py:264-279 | The worklist returns exactly the keys reachable from the given one. |
| Plans.DescendantsClosed | backend/app/schemas/workflow.py:264-279 | A node with its descendants has no edge leading out. |
| Plans.ChainEdges | backend/app/orchestration/planner.py:237-241 | One plain edge from each key to the next, none twice when the keys differ. |
| Protocol.BatchOf | backend/app/workflows/engine.py:585-617 | The batch holds exactly the nodes that are ready, not skipped, and ungated or approved. |
| Invariants.RunsExactlyWhenJoined | backend/app/workflows/engine.py:619-649 | A node runs exactly when it has no dependency, or its join policy, one or all, is met by satisfied edges. |
| Invariants.VerdictsAreLocal | backend/app/workflows/engine.py:619-649 | Inputs, verdict and readiness of a node depend on its direct dependencies only. |
| Invariants.UpstreamExactly | backend/app/workflows/engine.py:740-763 | A node is given one payload for each payload-passing edge from a node with a result, in edge order: that result, and nothing else. |
| Invariants.FirstFiringIsFirst | backend/app/workflows/engine.py:666-685 | The verdict that is routed is the first in plan order that fires or raises; one whose repairs are spent is passed over unless its condition raises. |
| Invariants.TotalPlansNeverThrow | backend/app/workflows/conditions.py:1-70 | Under total conditions, no verdict at an edge and no verdict sent back raises. |
| Invariants.FeedbackTextIsBounded | backend/app/workflows/engine.py:715-736 | The text is cut at 2000 characters and begins with the whole message of any rule that fits. |
| Invariants.FeedbackCarriesDetail | backend/app/workflows/engine.py:715-736 | A detail that is there follows the message after a blank line, a text as it is and other values written out, cut off at 2000 characters. |
| Invariants.MessageAloneExactly | backend/app/workflows/engine.py:715-736 | A message that fits goes out alone exactly when no detail is asked for, or it is null or blank text, and not when it is missing; a longer one exactly when cutting it off gives itself. |
| Invariants.MissingDetailIsWrittenOut | backend/app/workflows/engine.py:721-733 | A concrete missing detail: an empty verdict sends the sentinel on after the message. |
| Invariants.ReopenedFresh | backend/app/workflows/engine.py:696-712 | Reopening a set no edge leads out of leaves every remaining result and skip computed from current inputs. |
| Invariants.RecordedFresh | backend/app/workflows/engine.py:181-207 | Recording a batch keeps every stored result and skip the one its inputs call for. |
| Invariants.HumanSkipFresh | backend/app/services/orchestration_service.py:357-366 | A person may skip an unresolved node whose dependencies are open without making any result stale. |
| Histories.DecideKept | backend/app/workflows/engine.py:154-179 | The decision step keeps memory, session and commit in agreement. |
| Histories.RecordKept | backend/app/workflows/engine.py:181-213 | So does recording a batch. |
| Histories.RouteKept | backend/app/workflows/engine.py:653-713 | So does sending a verdict back. |
| Histories.ResumeKept | backend/app/services/orchestration_service.py:227-258 | So does resuming, from any state at rest. |
| Histories.EffectKeepsRecord | backend/app/services/workflow_repository.py:267-426 | Steps other than recording and deciding touch no log, no decision and no cost. |
| Histories.FreshRunAgreesExactly | backend/app/workflows/engine.py:146-147 | A run that starts from empty memory agrees with the store exactly when no row is settled. |
| Soundness.StepsAsIfNotSkipped | backend/app/workflows/engine.py:146-147 | While a run lasts, each step is the step it would make had the skips it ignores not been made, and it ignores skips by people only. |
| Soundness.SoundFacts | backend/app/workflows/engine.py:130-223 | Ignored skips included, the rows are keyed and current, session and commit hold the same record, and remaining budget and attempt counts are those of the rows. |
| Soundness.StepInvariant | backend/app/workflows/engine.py:154-223 | Every kind of step, operator control, crash and interruption keeps memory, session and last commit in agreement, ignored skips aside. |
| Safety.HistoryInvariant | backend/app/workflows/engine.py:130-223 | That agreement holds after every history, whatever was skipped before the start. |
| Safety.NoSupersededResults | backend/app/workflows/engine.py:653-713 | At the head of the loop, after any repairs, each result was computed from exactly the payloads the node would be given now, and each run-or-skip verdict, a person's aside, is the one it would get now. |
| Safety.CrashThenResumeRestores | backend/app/workflows/engine.py:77-105 | A crash after any commit followed by a resume rebuilds the same results, skips with reasons, attempt counts and remaining budget, adds exactly the skips the run had ignored, and drops waiting feedback and repair counts; the memory is the same exactly when there are none of these. |
| Safety.SkippedWhilePendingRunsAnyway | backend/app/services/orchestration_service.py:349-372 | A concrete history in which a node skipped while the workflow is pending is run. |
| Safety.SkipUndoneExactly | backend/app/services/workflow_repository.py:415-426 | A step undoes a skip exactly if it is a retry of, or a repair sent to, a node at or above the skipped one, or a round of a run that ignores the skip and calls for the node; any other step leaves the node skipped, and no step gives it an attempt. |
| Safety.SkippedStaysUnrun | backend/app/services/orchestration_service.py:349-372 | Over whole histories, a skipped node stays skipped and gets no attempt unless one of those steps comes in between. |
| Endings.DecisionEndsExactly | backend/app/workflows/engine.py:154-179 | Over all histories: the next decision commits cancelled exactly if that was requested; otherwise, unless a condition it reads raises, completed exactly if every node has a result or a skip, paused exactly if a node that is called for awaits a decision and none may run, and else the run goes on with exactly the nodes that may run; every row is left as its node was ruled. |
| Endings.RulingsSpelledOut | backend/app/workflows/engine.py:550-649 | Who runs, is held, declined, skipped or not considered, in terms of results, skips, satisfied edges, join policy and stored decision. |
| Endings.RecordingEndsExactly | backend/app/workflows/engine.py:209-219 | Over all histories: a recorded batch ends the workflow as failed exactly if the last attempt at some node did not succeed. |
| Endings.RunEndsExactly | backend/app/workflows/engine.py:154-223 | Over all histories: which events end a run, and the status each commits; a crash or an exception leaves the last commit. |
| Endings.InputsExactly | backend/app/workflows/engine.py:740-763 | Over all histories: a dispatched node is given exactly the stored results of its completed payload-passing dependencies, one per edge, in edge order. |
| Effects.CreatedExactly | backend/app/services/workflow_repository.py:97-149 | A new workflow is pending, its nodes wait and have no past. |
| Effects.ExecuteExactly | backend/app/services/orchestration_service.py:219-225 | Executed exactly while pending, with empty memory and what the budget leaves. |
| Effects.ResumeExactly | backend/app/services/workflow_repository.py:542-560 | Resumed exactly unless completed: cancelled, running, ready and failed nodes wait again, the others are as they were, and the run remembers every stored outcome and attempt and nothing else. |
| Effects.CrashExactly | backend/app/services/workflow_repository.py:57-65 | A crash leaves the last commit. |
| Effects.CrashNotedExactly | backend/app/services/workflow_runner.py:180-199 | Noting a crash marks the workflow failed, whatever it was. |
| Effects.InterruptExactly | backend/app/services/workflow_runner.py:41-86 | The sweep stops running and pending workflows and cancels exactly the running nodes. |
| Effects.CancelExactly | backend/app/services/workflow_repository.py:434-447 | Cancellation is taken down exactly while the workflow has not ended, and nothing else changes. |
| Effects.ApproveExactly | backend/app/services/orchestration_service.py:260-293 | Accepted exactly for a node that awaits a decision, which then waits to run. |
| Effects.RejectExactly | backend/app/services/orchestration_service.py:295-335 | Accepted exactly for a node that awaits a decision, which is then skipped for the reason given. |
| Effects.SkipExactly | backend/app/services/orchestration_service.py:349-372 | Accepted exactly for a node that is not completed, skipped, running or cancelled. |
| Effects.RetryExactly | backend/app/services/orchestration_service.py:337-347 | Accepted exactly for a failed node; it and everything reachable from it wait again without result, with attempts and decision. |
| Effects.RecordExactly | backend/app/workflows/engine.py:181-207 | Over all histories: recording leaves on each row of the batch exactly the attempts its policy allows, with their numbers, outcomes and costs, and the last result; other rows stay; memory, total and remaining budget follow. |
| Effects.RouteExactly | backend/app/workflows/engine.py:653-713 | Over all histories: the first verdict in plan order that raises or holds with repairs left is acted on: its target and everything reachable is reopened and forgotten, the text waits and one repair is counted; or the run ends at the last commit. |
| Effects.PlannedVerdictsAreSentBack | backend/app/orchestration/planner.py:112-145 | Over all histories of a planned graph: the verdict sent back is that of the first testing node whose `passed`, or review node whose `approved`, is JSON false with repairs left; there is none otherwise. |
| Safety.AttemptsWithoutGaps | backend/app/models/workflow.py:176-178 | Across repairs, retries and resumes a node's attempt numbers are exactly one to n, so the uniqueness constraint cannot be hit. |
| Safety.StepKeepsRecord | backend/app/services/workflow_repository.py:267-426 | No step rewrites a logged attempt or a decision; only an operator decides, on a node that has not run. |
| Safety.DecidedByOperator | backend/app/services/orchestration_service.py:260-335 | Every stored decision goes back to one accepted operator event, with the same verdict, made before the node had run. |
| Safety.ExecutedOnlyAfterApproval | backend/app/workflows/engine.py:585-617 | A node that requires approval has a logged attempt only if it was approved first. |
| Safety.DecisionsAreFinal | backend/app/services/workflow_repository.py:384-406 | A decision once written stays, and later history only adds to a node's log. |
| Safety.RejectedNeverExecuted | backend/app/services/orchestration_service.py:295-335 | A rejected node never gets an attempt, whatever repairs, retries, skips and resumes follow. |
| Feedback.FeedbackIsDelivered | backend/app/workflows/engine.py:687-693 | A verdict sent back to a node with a result is handed over by the very next decision, with its text, and waits no longer; exactly unless the workflow was cancelled or a verdict of that round raises. |
| Feedback.CalledIsHandedOver | backend/app/workflows/engine.py:357-404 | A node that is called for is dispatched with exactly what waits for it, and it no longer waits. |
| Feedback.TargetIsCalledFor | backend/app/workflows/engine.py:619-649 | A repaired node that had a result is called for at once: what it depends on is not reopened, and if gated it was approved before. |
| Feedback.FeedbackMissesSkippedNode | backend/app/workflows/engine.py:687-693 | A verdict sent back to a node the engine skipped does not reach it: it is skipped again and the text goes on waiting. |
| Feedback.FeedbackComesFromVerdict | backend/app/workflows/engine.py:61-62 | Whatever waits for a node is the text of a verdict some earlier step sent back to it, and it has waited in one run ever since. |
| Feedback.HandedOverWaited | backend/app/workflows/engine.py:399 | A dispatched node is given feedback only if it waited for that node. |
| Feedback.FeedbackLostInCrash | backend/app/workflows/engine.py:77-105 | After any verdict sent back, a crash and a resume leave the target reopened, the text gone and the repair uncounted. |
| Feedback.SoleNodeForgets | backend/app/workflows/engine.py:77-105 | A concrete history of six events that does so. |
| Budgets.CostIsLogged | backend/app/services/workflow_repository.py:267-341 | Conservation: the workflow's total is always the sum of the costs in its nodes' attempt logs. |
| Budgets.OverspendIsOneBatch | backend/app/workflows/engine.py:192-200 | What remains is the budget less the recorded total; if costs stay within estimates, a batch dispatched with R remaining ends at budget + (K-1)R at most, and with nothing remaining it spends nothing. |
| Budgets.RecordedCostBounded | backend/app/services/agent_executor.py:246-270 | Over a whole history the recorded cost is at most the budget times the attempts the plan's nodes may make. |
| Budgets.SpentBudgetStopsSpending | backend/app/services/agent_executor.py:163-172 | Over whole histories, once the total has reached the budget it never grows again, if costs stay within estimates. |
| Evaluation.EngineRefinesEvaluation | backend/app/workflows/engine.py:130-223 | With agents that are functions of node and inputs, in every reachable state each settled node has the outcome of recursive evaluation of the graph. |
| Evaluation.SettledRowsEvaluate | backend/app/services/workflow_repository.py:522-540 | Rows whose results are current and faithful agree with recursive evaluation wherever they are settled. |
| Evaluation.ResultsDoNotDependOnHistory | backend/app/workflows/engine.py:130-223 | Two completed histories with the same operator skips end with the same results, whatever the batching, pauses, repairs, crashes and resumes. |
| Evaluation.NoDeadlock | backend/app/workflows/engine.py:535-548 | In a valid plan some node is ready exactly when some node is unresolved. |
| Evaluation.CompletedMeansAllResolved | backend/app/workflows/engine.py:158-160 | A workflow marked completed has every node completed or skipped. |
| Termination.RoundsSpendMeasure | backend/app/workflows/engine.py:154-221 | Each round that does not end the run lowers unused repairs times nodes plus unresolved nodes. |
| Termination.RunEndsWithinBound | backend/app/workflows/engine.py:154-221 | A call of `run` makes at most N(1 + cycles T) rounds for N nodes and T feedback targets. |
| Termination.DispatchesBounded | backend/app/workflows/engine.py:674-694 | In one call a node is dispatched at most once plus the repair limit for each target at or above it. |
| Executor.Execute | backend/app/services/agent_executor.py:50-147 | The fallback loop answers with the first tried candidate at which it must stop. |
| Executor.Attempt | backend/app/services/agent_executor.py:149-228 | An attempt whose estimate exceeds either limit is not made; otherwise it succeeds exactly on a valid answer, whose payload and cost it has, and carries the error of a refusal, a timeout or a bad answer. |
| Executor.SucceedsExactly | backend/app/services/agent_executor.py:374-387 | An attempt succeeds exactly when some tried candidate would and every one tried before it allows fallback. |
| Executor.FallsBackExactly | backend/app/services/agent_executor.py:374-387 | Every earlier offer tried failed in a way another model might not share; the last one succeeded, failed otherwise, or left no provider. |
| Executor.PassedOverExactly | backend/app/services/agent_executor.py:83-141 | An offer is passed over exactly if an earlier one of its provider was tried and refused the key or was unavailable. |
| Executor.UnavailableNotRetried | backend/app/services/agent_executor.py:83-141 | A provider found unavailable is not called again in the same attempt. |
| Rulings.LedgerIsRecording | backend/app/workflows/engine.py:184-207 | Recording a batch node by node, attempt by attempt, equals the machine's one recording step. |
| Engine.ReadyNodes | backend/app/workflows/engine.py:535-548 | Returns, in plan order, exactly the unresolved nodes with all dependencies resolved. |
| Engine.ComputeSkipReason | backend/app/workflows/engine.py:619-649 | The loop computes the machine's verdict, and raises exactly when reading one of the node's conditions does. |
| Engine.ComputeUpstream | backend/app/workflows/engine.py:740-763 | The loop gathers the machine's inputs, in edge order. |
| Engine.ResolveSkips | backend/app/workflows/engine.py:550-583 | Skipping while verdicts are still being read gives the same rulings, or the same exception, as reading them all first. |
| Engine.PartitionApproval | backend/app/workflows/engine.py:585-617 | Splits the runnable nodes into gated and allowed and skips the rejected ones, as one ruling. |
| Engine.Rule | backend/app/workflows/engine.py:162-179 | Skips and approvals together are the one ruling of the machine on every ready node; an exception leaves the last commit alone. |
| Engine.Prepare | backend/app/workflows/engine.py:357-404 | Marks the batch running, reads each node's inputs and hands over its pending feedback once. |
| Engine.ExecuteBatch | backend/app/workflows/engine.py:406-428 | Every member gets the executor's answers under its own ceiling and the budget that remained before the batch, as its policy allows; none costs more than that budget if estimates are honest. |
| Engine.AttemptNode | backend/app/workflows/engine.py:430-484 | Each attempt is the executor's answer within the agent's ceiling and the remaining budget; they are numbered on from those used and stop at success, a final error or the retry policy. |
| Engine.RecordNode | backend/app/workflows/engine.py:185-207 | One node's attempts enter memory, row, total and remaining budget. |
| Engine.RecordBatch | backend/app/workflows/engine.py:184-207 | Memory, rows, total and remaining budget after the loop are those of the machine's recording step. |
| Engine.Reopen | backend/app/workflows/engine.py:688-692 | Reopens a set of nodes in memory and store, whatever the order. |
| Engine.SendBack | backend/app/workflows/engine.py:687-702 | The branch that fires: the message with its detail goes to the target, or the step raises. |
| Engine.RouteFeedback | backend/app/workflows/engine.py:653-713 | Reopens the first fired target with its descendants, hands it the message with the detail, spends one repair, and commits; changes nothing; or raises, exactly when a condition, the detail or the target does, leaving the last commit alone. |
| Engine.Schedule | backend/app/workflows/engine.py:154-179 | One pass from the loop head is the machine's decision step, in every branch, an exception among them. |
| Engine.Perform | backend/app/workflows/engine.py:175-221 | Running, recording and routing a batch are the machine's steps, ending the run exactly on a failure or an exception. |
| Engine.RunWorkflow | backend/app/workflows/engine.py:130-223 | `run` ends on every world and passes only states the machine passes, within the round bound. |
| Service.ExecuteWorkflow | backend/app/services/orchestration_service.py:219-225 | Executing is a start event followed by engine steps, and keeps the invariant. |
| Service.ResumeWorkflow | backend/app/services/orchestration_service.py:227-258 | Refused exactly when completed; otherwise a resume event followed by engine steps. |
| Service.ApproveNode | backend/app/services/orchestration_service.py:260-293 | Accepted exactly when the machine allows it, and makes the machine's step. |
| Service.RejectNode | backend/app/services/orchestration_service.py:295-335 | As for approval. |
| Service.SkipNodeByOperator | backend/app/services/orchestration_service.py:349-372 | As for approval. |
| Service.RetryNode | backend/app/services/orchestration_service.py:337-347 | Reopens the failed node and all its descendants as the machine does, or is refused. |
| Service.RequireNode | backend/app/services/orchestration_service.py:385-406 | A control is allowed exactly on an idle workflow, a known node and an allowed status. |
| Repository.WorkflowRun.Restore | backend/app/workflows/engine.py:77-105 | Results, skips and attempts come back; feedback, repairs and cost do not. |
| Repository.WorkflowRepository.RecordExecution | backend/app/services/workflow_repository.py:267-341 | Adds one attempt to the row and its cost to the total; completes the node on success. |
| Repository.WorkflowRepository.ReopenNode | backend/app/services/workflow_repository.py:415-426 | The node waits again without result or reason; attempts and decision stay. |
| Repository.WorkflowRepository.ReopenNodes | backend/app/workflows/engine.py:688-692 | The loop over a set reopens each of its rows and no other, in any order. |
| Repository.WorkflowRepository.CancelUnfinishedNodes | backend/app/services/workflow_repository.py:460-479 | Cancels exactly the nodes that have no outcome. |
| Repository.WorkflowRepository.RequestCancellation | backend/app/services/workflow_repository.py:434-447 | Accepted exactly while the workflow has not ended. |
| Repository.WorkflowRepository.RecordApproval | backend/app/services/workflow_repository.py:384-406 | Writes the decision and sends the node back to waiting or to skipped. |
| Repository.WorkflowRepository.CompletedState | backend/app/services/workflow_repository.py:522-540 | The loop returns the results, skips and attempts the rows hold. |
| Repository.WorkflowRepository.PrepareResume | backend/app/services/workflow_repository.py:542-560 | Clears the cancellation and sends exactly the cancelled, running, ready and failed nodes back to waiting. |
| Selection.TieBreakIsAlphabeticalExactly | backend/app/orchestration/selection.py:129-137 | The tie-break is alphabetical exactly between ids neither of which extends the other. |
| Selection.FindBest | backend/app/orchestration/selection.py:129-137 | `max` returns the agent that beats every other, in any iteration order. |
| Selection.BestIsUnique | backend/app/orchestration/selection.py:129-137 | There is one such agent, so the choice is deterministic. |
| Selection.BestGains | backend/app/orchestration/selection.py:138-140 | While anything is left and covered by someone, the best agent covers some of it: the `break` is dead. |
| Selection.GreedySplitsExactly | backend/app/orchestration/selection.py:124-143 | The shares are non-empty, provided by their agents, disjoint, and together all that is required. |
| Selection.GreedyRatio | backend/app/orchestration/selection.py:124-143 | Greedy uses at most k H(n) agents for n capabilities, for every cover of size k. |
| Selection.Cover | backend/app/orchestration/selection.py:123-143 | The loop computes the greedy cover, in any iteration order. |
| Selection.SelectMinimal | backend/app/orchestration/selection.py:102-154 | Refuses exactly the capabilities nobody provides, and otherwise takes agents round by round: each covers most of what is left, costs least among those, and wins the tie-break. |
| Selection.SelectionByRounds | backend/app/orchestration/selection.py:123-143 | The same of the greedy cover: no agent available covers more of what is left, none that covers as much costs less, ties go by id, and each takes all it covers until nothing is left. |
| Selection.SelectionIsExactAndSmall | backend/app/orchestration/selection.py:102-154 | Every answered request is split exactly, among at most k H(n) agents when k would do. |
| Planner.OrderIsByStage | backend/app/orchestration/planner.py:212-217 | The nodes come out by rising stage and within a stage by agent id, all of them and no others. |
| Planner.OrderIsDeterministic | backend/app/orchestration/planner.py:212-217 | The same selection gives the same order however it is held. |
| Planner.StageOf | backend/app/orchestration/planner.py:219-232 | The earliest stage over the chosen capabilities, or the default when there are none. |
| Planner.Reduce | backend/app/orchestration/planner.py:339-354 | The worklist drops exactly the dependencies that another one reaches. |
| Planner.BuildDependencies | backend/app/orchestration/planner.py:246-261 | The pass over the shared dictionary is a transitive reduction: all ancestors stay, no kept dependency of a non-synthesis node reaches another, and a synthesis keeps all. |
| Planner.ConsumptionEdges | backend/app/orchestration/planner.py:234-271 | The same of the edges, which join each pair once and carry the condition their two ends call for. |
| Planner.EdgesFrom | backend/app/orchestration/planner.py:263-271 | The edges are exactly the dependencies, each once, under the condition its ends call for. |
| Planner.FirstTargetWell | backend/app/orchestration/planner.py:309-324 | A feedback target is found exactly when some direct dependency offers one. |
| Planner.BuildEdges | backend/app/orchestration/planner.py:234-271 | In both modes every edge goes strictly forward in the node order. |
| Planner.MakePlan | backend/app/orchestration/planner.py:161-208 | The graph always validates and no two edges join the same nodes; in parallel mode it is the reduced consumption relation, in sequential mode the chain; a testing node with a direct code dependency sends `failures` back when `passed` is false, a review node that does not test sends `issues` back when `approved` is false, each to the first such dependency; approval and join policy are set exactly where capabilities call for them. |
| Planner.PlannedVerdictFires | backend/app/orchestration/planner.py:115-145 | With repairs left, such a verdict fires exactly on payloads whose field is JSON false, and never raises. |
| Planner.ConditionMeansFindings | backend/app/orchestration/planner.py:99-110 | Edges are conditioned exactly from a security to a code agent, and the condition holds exactly if `findings` is there and not null, false or empty. |
| Planner.ConsumedStandsEarlier | backend/app/orchestration/planner.py:36-91 | Whatever a capability consumes stands at an earlier stage, so the stage comparison loses no dependency. |
| Planner.StagesFollowGroups | backend/app/orchestration/planner.py:36-58 | The groups of capabilities stand in one order of stages, an agent chosen for nothing between code and tests. |
| Planner.AuditsAndResearchAreIndependent | backend/app/orchestration/planner.py:75-91 | An audit does not wait for research, nor research for an audit. |
| Planner.TestsAndReviewsAreIndependent | backend/app/orchestration/planner.py:75-91 | A review does not wait for tests, nor tests for a review. |
| Planner.WorkWaitsForWhatItNeeds | backend/app/orchestration/planner.py:246-257 | A code agent waits for agents that plan, research or audit; a testing or review agent for those that plan or code. |
| Planner.ReportsSeeEverything | backend/app/orchestration/planner.py:93-97 | An agent that only reports waits for every one that does not. |
| Planner.FiredVerdictReopensItsGiver | backend/app/workflows/engine.py:687-692 | A feedback target that is a direct dependency reopens the node that gave the verdict. |
| Planner.PlannerConditionsAreTotal | backend/app/orchestration/planner.py:273-285 | The conditions the planner writes never raise, whatever an agent returns. |
| Planner.PlannerDetailsNeverRaise | backend/app/orchestration/planner.py:309-335 | Nor does looking up the detail of the feedback it asks for. |
| Teams.NormaliseWell | backend/app/orchestration/team_designer.py:196-221 | One synthesizer, last, joining exactly the kept workers' roles in sorted order; the workers are the others in order, up to the cap, which keeps the team within `max_agents` from two on. |
| Teams.ChosenIsFirst | backend/app/orchestration/team_designer.py:202-213 | The synthesizer is the first agent flagged as one, or the last agent if none is. |
| Teams.TeamIsCapped | backend/app/orchestration/team_designer.py:215-221 | The team has all its workers, up to one fewer than allowed and at least one, and the synthesizer. |
| Teams.Unique | backend/app/orchestration/team_designer.py:399-405 | Ends by pigeonhole with an unused name: the base, or the first free numbered one. |
| Teams.AssignKeys | backend/app/orchestration/team_designer.py:282-288 | Different roles get different keys, each beginning with the role's slug, or a default word if that is empty, whatever the slugs. |
| Teams.AddEdgesInto | backend/app/orchestration/team_designer.py:328-338 | Adds the missing edges into one agent and repeats none. |
| Teams.BuildEdges | backend/app/orchestration/team_designer.py:325-339 | Exactly the declared dependencies between known, different nodes, each once. |
| Teams.DesignedExactly | backend/app/orchestration/team_designer.py:325-339 | A pair is joined exactly if the agent at its end declares a known role whose key, a different one, is at its start. |
| Teams.AssemblePlan | backend/app/orchestration/team_designer.py:342-361 | Keeps the designed edges exactly when they make a valid plan, and otherwise chains the nodes; fails exactly on a shared key. |
| Teams.BuildTeam | backend/app/orchestration/team_designer.py:261-322 | Compiles exactly the teams with distinct roles; the edges are the design's exactly when the design is acyclic; workers join on all, the synthesizer on any, and agent ids fit their column. |
| Teams.SharedRoleNeverCompiles | backend/app/orchestration/team_designer.py:282-288 | Two agents with one role, whatever else: a concrete team that does not compile. |
| Teams.SynthesizerIsReached | backend/app/orchestration/team_designer.py:342-361 | In a compiled team, designed or chained, every worker leads to the synthesizer. |
| Teams.SlicesFitExactly | backend/app/orchestration/team_designer.py:279-280 | The agents' ceilings add up to at most the budget exactly when a slice reaches the upper clamp, or reaches the floor and is not rounded up. |
| Teams.SlicesAlmostFit | backend/app/orchestration/team_designer.py:279-280 | From the floor on, they exceed it by at most half a ten-thousandth an agent. |
| Teams.ThreeSlicesOfTwo | backend/app/orchestration/team_designer.py:279-280 | Concrete ceilings that exceed the budget. |
| Teams.AttemptsFitExactly | backend/app/orchestration/team_designer.py:307-308 | Over the two attempts of each agent they stay within the budget exactly when a slice is at least twice the upper clamp. |
| Persistence.CreateWorkflow | backend/app/services/workflow_repository.py:122-149 | A valid plan is stored exactly when keys and agent ids fit their columns and no two edges join the same nodes; every edge column then fits. |
| Persistence.ValidPlanMayNotStore | backend/app/models/workflow.py:145-149 | A concrete valid plan that is refused. |
| Persistence.LongAgentIdIsNotStored | backend/app/models/workflow.py:99-100 | Another: one node, no edges, and an agent id of 65 characters. |
| Persistence.LoadReadsWhatWasStored | backend/app/services/workflow_repository.py:483-520 | Whatever order rows come back in, loading gives the planned node sequence and the same edges. |
| Persistence.EdgeOrderIsIrrelevant | backend/app/workflows/engine.py:535-548 | Edge order changes neither readiness, nor who runs, nor the set of inputs, nor what a repair reopens, nor validity. |
| Persistence.BatchIsTheSame | backend/app/workflows/engine.py:535-617 | Under any edge order a round dispatches the same batch in the same order. |
| Persistence.RulingIsTheSame | backend/app/workflows/engine.py:550-649 | Under any edge order the ruling on a node differs at most in the wording of a skip. |
| Reordering.StepAlike | backend/app/workflows/engine.py:154-223 | Any step keeps two states alike that differ in the order of inputs and the wording of skips alone, under any two edge orders. |
| Reordering.EdgeOrderNeverMatters | backend/app/services/workflow_repository.py:508-516 | The same events lead to the same statuses, payloads, decisions, logs, costs, batches, feedback and repairs whatever order the edges are read back in; inputs agree up to their order. |
| Reordering.NoSupersededResultsInAnyOrder | backend/app/services/workflow_repository.py:508-516 | Nothing superseded is kept across changes of edge order either, inputs compared up to their order. |
| Reordering.ResultsDoNotDependOnEdgeOrder | backend/app/services/workflow_repository.py:508-516 | For agents that do not read the order of their inputs, completed histories end with the same results whatever the edge orders. |
| RateLimiter.RateGuard.MemoryHit | backend/app/services/abuse_limits.py:154-173 | A hit is allowed exactly when its counter, started over once expired, is within the limit, and reports what is left or how long to wait. |
| RateLimiter.RateGuard.MemoryPeek | backend/app/services/abuse_limits.py:175-197 | A peek answers what an immediate hit would be told, and counts nothing. |
| RateLimiter.SlidingWindowBound | backend/app/services/abuse_limits.py:154-173 | With a clock that does not go back, a closed interval as long as the window lets through at most twice the limit, a half-open one at most one fewer. |
| RateLimiter.ClosedBoundIsReached | backend/app/services/abuse_limits.py:154-173 | Some history reaches the closed bound. |
| RateLimiter.HalfOpenBoundIsReached | backend/app/services/abuse_limits.py:154-173 | Another reaches the half-open bound. |
| RateLimiter.EpochPassesTheLimit | backend/app/services/abuse_limits.py:160-165 | Each counter lets through its first `limit` hits and no others. |
| RateLimiter.OperatorsAreIndependent | backend/app/services/abuse_limits.py:155-163 | An operator's counter and allowed hits depend on that operator's requests alone. |
| RateLimiter.WaitSufficesExactly | backend/app/services/abuse_limits.py:166-173 | A refused operator that waits as told is let through exactly when at most a second, or a whole number of seconds, was left. |
| RateLimiter.WaitFallsShort | backend/app/services/abuse_limits.py:166-173 | A concrete refused operator that waits as told and is refused again. |
| Layering.RankNodes | frontend/lib/graph.ts:4-38 | Ends on every graph; columns are disjoint; a column that does not follow its sources is one node; all nodes are placed exactly when no trap holds the empty key; on an acyclic graph every edge goes to a later column and the column is the longest path into the node. |
| Layering.IncomingOf | frontend/lib/graph.ts:7-13 | Each node's incoming list holds exactly the sources of its edges; edges into unknown nodes are dropped. |
| Layering.NextColumn | frontend/lib/graph.ts:17-34 | A round takes the free keys, or the first key when a cycle blocks all, and takes nothing only if that key is empty. |
| Layering.TightForwardIsDepth | frontend/lib/graph.ts:17-36 | Columns that only point forward, each fed by the one before, are longest path lengths. |
| Layering.EmptyKeyCanBeTrapped | frontend/lib/graph.ts:21-24 | A concrete graph whose node is dropped. |

## Left out

- Conditions: floats, costs and clocks are reals. The engine's conditions use the digits of Unicode 15.0; the theorems about conditions take any table.
- Protocol: one process runs a workflow at a time, and operator controls come while none does; the short window between starting a run and its first commit is not exposed to controls. Batch members run one after another, which is sound because they only read shared state.
- Protocol: a history reads the edges in one order throughout, though a resume may read them back in another. `Reordering` carries the theorems over up to the order of inputs, so an agent that reads that order may answer differently after a resume.
- Protocol: a failed lookup in the agent registry, retry prompts and back-off, collaboration, the decision log, per-agent tables and result rows are not part of this model. How a detail that is not text is written out as JSON is an arbitrary function, and the wording of skip reasons is abbreviated.
- Evaluation.EngineRefinesEvaluation: agents are functions of node and upstream payloads, so a repaired agent that uses its feedback text is not covered.
- Budgets.OverspendIsOneBatch: only recorded costs count; the code drops the costs of candidates it falls back from.
- Termination.RunEndsWithinBound: repair counts live in memory, so the bound is per call of `run`, as in the code.
- Engine.RunWorkflow: what agents answer and when another session cancels are arguments; answers depend on the node and the attempt number.
- Planner.MakePlan: distinct node keys are assumed, since deriving keys from agent ids can merge two of them; the analysis of the request, which gives each node its objective, is not modelled. The source list of each node's edges is taken in any order.
- Selection.SelectMinimal: the explicitly chosen roster and the explanations of exclusions are not modelled.
- Teams.AssignKeys: the slug of a role is an arbitrary function. Parsing the design, the default team, prompts and the choice of the cheapest model are left out.
- Persistence.CreateWorkflow: what the database refuses in text and JSON columns, such as NUL characters, is not modelled.
- Persistence.LoadReadsWhatWasStored: stored status and skip reason are not carried; `Repository` has them.
- RateLimiter.SlidingWindowBound: the Redis counter, which depends on server expiry and lets requests through on errors, and the rolling spend cap are not modelled.
- The ranking of models by the provider registry is the executor's input; schema validation of answers is part of a reply.
- Routes, sessions, settings, message bus, memory, presence, rendering and migrations are not modelled.
