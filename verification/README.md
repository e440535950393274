# Metis platform: a verified model

Dafny models of the stateful cores of the Metis agent platform, with proofs of
what each of them guarantees over every input, every run and every
interleaving. `dafny verify dfyconfig.toml` checks all of it.

Each core has a module with the program itself (classes, loops and in-place
updates where the TypeScript has them, each method proved against a
specification) and one or more modules with what is proved about whole runs:

| core | program | theorems |
|---|---|---|
| workflow planner and runner | `WorkflowPlanner`, `WorkflowRouter`, `WorkflowRunner` | `WorkflowGraph`, `WorkflowPlans`, `WorkflowKinds`, `WorkflowSafety`, `WorkflowLinear`, `WorkflowEquivalence`, `WorkflowOrders`, `WorkflowSiblings` |
| builder: validation, repair, readiness, simulation | `BuilderValidation`, `BuilderRepair`, `BuilderReadiness`, `BuilderSimulation` | `BuilderRepairRuns`, `BuilderEffects`, `BuilderRoles`, `BuilderSamples`, and the last two programs |
| connector governance | `RateLimiter`, `CircuitBreaker`, `ConnectorInvoke`, `McpClient` | `RateLimiterRuns`, `CircuitBreakerRuns`, `ConnectorRuns`, `ConnectorCircuits`, `McpSession`, `Splitting` |
| kill switch against worker | `ExecutionProcessor` | `KillSwitch`, `KillHistory` |
| canary evaluator | `CanaryGates`, `CanaryEvaluator` | `CanaryRuns` |
| message bus | `BusWire`, `MessageBus` | `MessageBusRuns`, `MessageBusArrivals` |
| schema validator | `SchemaValidator` | `SchemaConformance`, `SchemaKeywords`, `SchemaFaults` |
| pack import pipeline | `PackDomain`, `PackPipeline` | `PackPipelineRuns`, `PackFailures` |
| agent success rate | `AgentRegistry` | `AgentRegistry` |

## How the programs are modelled

- Databases, queues, Redis and the network are maps, sequences and parameters
  with the semantics written out. What an outside call returns and what time it
  is are parameters, so every theorem holds for all of them.
- Every access of the worker to its session, every write of a canary evaluation
  and every access and progress report of the import pipeline may throw. One
  that throws has no effect; one that takes effect and then throws is the same
  as the next one throwing. A kill request that throws takes no further step.
- Concurrency is a list of events or actions, each atomic at the accesses where
  the program can be overtaken. An event that cannot happen in a state changes
  nothing, so every list is a run and the theorems range over all lists.
- Numbers are exact: integers for counts and milliseconds, reals for rates.
- In a level of a workflow every node is started in declaration order; start,
  end, decision and skill nodes without a capability write before they first
  wait, the others write when they finish. Nothing is assumed about the order
  of finishing.
- A worker's step and a kill interleave at every access to the session row.
- Canary evaluations do not overlap and happen at increasing times; manual
  promotion and rollback may come between them.

## What the proofs show about the code

Guarantees that hold as promised are in the table below. These are the places
where the code does less than its comments or names suggest; each is a theorem
with the exact condition or a concrete run.

- A level's outcome is fixed whatever the order of completion. It equals a
  sequential run in every order that respects the dependencies if nodes read
  only outputs of nodes before or after them. Where services and skills do the
  other reads, along paths that can lead somewhere, only then
  (`WorkflowOrders.OrderIsInvisibleIff`); a path that no output has, such as
  `$.s.nothing` of a start node, shows nothing. A planned list that shows the
  difference is in `WorkflowSiblings.SiblingReadMatters`.
- The global retry repair stays on offer with a no-op behind it once no node
  lacks a retry (`BuilderRepairRuns.RetryAllWork`). Repairs of one node go to
  the first node with its id, and branch repairs to none if the id is empty;
  however repairs are chosen, a list with a branch that they do not reach never
  becomes sound, and one with such a missing retry only by a global repair
  (`BuilderRepairRuns.EveryOrderSoundIff`).
- The approval repair is carried only by the issues of policy injection
  (builder-validation.service.ts:138-147), while repairs are picked from the
  stored structural issues, which never offer it
  (`BuilderRepairRuns.ApprovalIsNeverOffered`); and applying it would leave the
  approval missing (`BuilderReadiness.ApprovalStaysMissing`). The coverage part
  of the policy score takes effect only where ids repeat
  (`BuilderReadiness.CoverageShortIff`, `BuilderReadiness.NoCoverageLoss`).
- The minute and hour waits announced by the limiter are one millisecond short,
  and a window may admit twice its limit around a reset, but not without one
  (`RateLimiterRuns.MinuteWaitIsExact`, `RateLimiterRuns.TwicePerWindowIff`,
  `RateLimiterRuns.PlainLimitWithoutReset`). A bucket that cannot hold a whole
  token refuses for ever, and still announces a wait
  (`RateLimiterRuns.BurstWaitIsExact`).
- The half-open probe limit never acts (`CircuitBreakerRuns.AdmittedExactly`),
  and two probe successes close the circuit even with a failed probe between
  them (`CircuitBreakerRuns.ProbeFailureForgotten`).
- A lost trace write makes one call count twice, as a success or failure and
  again as a failure (`ConnectorRuns.OneRecordPerCallIff`).
- A request whose write throws is settled again by its timer, or by an answer
  (`McpSession.SettledTwiceIff`).
- A session whose kill was reported as successful can end SUCCEEDED or stay
  RUNNING (`KillSwitch.KillOverwritten`, `KillSwitch.KillLeavesRunning`); the
  kill wins exactly when the worker's next use of the status, if there is one,
  is not a write (`KillSwitch.KillWinsExactly`).
- An error after SUCCEEDED is written, such as a failing progress report, is
  caught too and overwrites it with FAILED (`ExecutionProcessor.Session.Finish`).
- The comment at bus.service.ts:214 promises redelivery of entries whose
  handler failed; since only new entries are ever read, there is none
  (`MessageBusRuns.FailedHandlerIsFinal`). A replay with its default limit of
  500 is the full history only of missions with at most 500 messages
  (`MessageBusRuns.ReplayCoversIff`).
- A WARN gate, or one access of an evaluation that throws too early, leaves a
  canary ACTIVE with no evaluation to come (`CanaryRuns.StrandedIff`,
  `CanaryRuns.OneErrorStrands`). A step of zero or less is accepted; unless the
  first step already reaches the maximum, such a canary is never promoted
  unattended (`CanaryRuns.CanBePromotedIff`), and a negative step lowers its
  traffic (`CanaryRuns.TrafficNeverFallsIff`).
- An import that failed after its version was created cannot be repeated: the
  version exists from then on, in whatever status the failure left it. One that
  failed before can (`PackPipelineRuns.RetrySucceedsIff`).
- A manifest rejected in validation has DRAFT written over DRAFT, which is no
  legal transition (`PackPipelineRuns.StatusWritesAreLegalIff`).
- Schema keywords other than `enum` act only under a single matching `type`
  (`SchemaConformance.UntypedChecksEnumOnly`), unlike sections 6.1 to 6.5 of
  JSON Schema Validation, draft 2020-12.
- One recorded invocation takes an agent out of UNAVAILABLE or DRAINING
  (`AgentRegistry.InvocationOverridesOperator`).

## Model

| member | source | states |
|---|---|---|
| `WorkflowPlanner.PlanExecutionLevels` | apps/api/src/modules/execution/workflow-runner.service.ts:193-227 | with no dependency anywhere, level `k` is the node declared `k`-th alone; otherwise it fails exactly when a dependency is missing or the graph has a cycle, listing in declaration order the ids that can never run, and else level `k` holds, in declaration order, exactly the nodes whose longest dependency chain has `k` links |
| `WorkflowPlanner.PlanGraph` | apps/api/src/modules/execution/workflow-runner.service.ts:200-226 | the planning loop, for any list including repeated ids: failure iff unsatisfiable, with exactly the stuck ids; success is a plan by depth |
| `WorkflowPlanner.ReadyLevel` | apps/api/src/modules/execution/workflow-runner.service.ts:206-213 | the nodes of `remaining` whose dependencies are all completed, in order |
| `WorkflowPlanner.Complete` | apps/api/src/modules/execution/workflow-runner.service.ts:220-223 | marks a level as completed and removes exactly its ids, keeping the order of the rest |
| `WorkflowPlanner.RoundAdvances` | apps/api/src/modules/execution/workflow-runner.service.ts:205-225 | one round keeps the planning invariant: the ids finished so far are exactly those ranked by their depth |
| `WorkflowPlanner.RoundStalls` | apps/api/src/modules/execution/workflow-runner.service.ts:214-219 | an empty level with ids remaining means the remaining ids are exactly the stuck ones |
| `WorkflowGraph.RankIsDepth` | apps/api/src/modules/execution/workflow-runner.service.ts:182-192 | a closed rank in which every positive rank is forced equals the length of the longest dependency chain |
| `WorkflowGraph.StuckIffUnsatisfiable` | apps/api/src/modules/execution/workflow-runner.service.ts:214-218 | some node can never run if and only if a dependency is missing or the graph has a cycle |
| `WorkflowPlans.PlanPartitions` | apps/api/src/modules/execution/workflow-runner.service.ts:193-227 | every node sits in exactly one place of the plan |
| `WorkflowPlans.PlanRespectsDependencies` | apps/api/src/modules/execution/workflow-runner.service.ts:186-189 | every dependency lies in a strictly earlier level |
| `WorkflowPlans.PlanIsOptimal` | apps/api/src/modules/execution/workflow-runner.service.ts:186-189 | no schedule that respects dependencies runs a node earlier than its level, and none uses fewer levels |
| `WorkflowPlans.PlansExactlyWhenSchedulable` | apps/api/src/modules/execution/workflow-runner.service.ts:191-219 | planning succeeds if and only if some dependency-respecting schedule exists at all |
| `WorkflowLinear.IndependentRun` | apps/api/src/modules/execution/workflow-runner.service.ts:97-198 | a list without dependencies ends like its nodes executed one by one in declaration order, up to the first that fails or asks a person, and its results are for the first nodes declared |
| `WorkflowRouter.ResolveJsonPath` | apps/api/src/modules/execution/node-router.service.ts:218-227 | the walk along a path, equal to a recursive definition; anything else than a path stands for itself |
| `WorkflowRouter.ResolveInput` | apps/api/src/modules/execution/node-router.service.ts:210-216 | default input overwritten field by field by the resolved mapping |
| `WorkflowRouter.ExecuteAgrees` | apps/api/src/modules/execution/node-router.service.ts:71-199 | a node's result depends on the shared state only through the keys its mapping and condition name |
| `WorkflowKinds.ResolveMeans` | apps/api/src/modules/execution/node-router.service.ts:218-227 | a reference of the form `$.a.b` leads member by member from the output of its root, none of them null or undefined on the way; any other is itself |
| `WorkflowKinds.InputMeans` | apps/api/src/modules/execution/node-router.service.ts:210-216 | a field of the input has the value of the last reference for it, and one that the mapping does not name is the default |
| `WorkflowKinds.DecisionMeans` | apps/api/src/modules/execution/node-router.service.ts:229-243 | what a decision decides: by its operator on the tested value, with the branch that goes with it; without a condition it is true, and without a field it fails |
| `WorkflowKinds.TestsOne` | apps/api/src/modules/execution/node-router.service.ts:234 | the tested value is the one in the state, or the input's field if that is null or undefined, and there is exactly one |
| `WorkflowKinds.ServicesMean` | apps/api/src/modules/execution/node-router.service.ts:71-199 | connector, agent and adapter nodes give what their service gives; a node fails exactly if its kind is unknown or the service it asks fails, and a skill asks one only for a non-empty capability |
| `WorkflowKinds.OutputsMean` | apps/api/src/modules/execution/node-router.service.ts:71-199 | what the other kinds give |
| `WorkflowRunner.ExecutionContext.StartAll` | apps/api/src/modules/execution/workflow-runner.service.ts:108-111 | starting a level: each node sees what its predecessors in the level wrote before they first waited |
| `WorkflowRunner.ExecutionContext.FinishAll` | apps/api/src/modules/execution/workflow-runner.service.ts:112 | the waiting nodes finish in an arbitrary order, and the state afterwards is the same for all of them |
| `WorkflowRunner.ExecutionContext.ExecuteLevel` | apps/api/src/modules/execution/workflow-runner.service.ts:106-112 | a level's outcomes and the state after it are functions of the state before it, whatever the order of completion |
| `WorkflowRunner.PushResults` | apps/api/src/modules/execution/workflow-runner.service.ts:114-121 | the results are appended in declaration order of the level |
| `WorkflowRunner.RunLevels` | apps/api/src/modules/execution/workflow-runner.service.ts:97-151 | results, status and final state of the whole run, as the specification runs the levels; how it ends is `WorkflowSafety.RunHasHistory` |
| `WorkflowRunner.Run` | apps/api/src/modules/execution/workflow-runner.service.ts:103-151 | nothing runs when planning fails; otherwise the run of the plan |
| `WorkflowSafety.RunHasHistory` | apps/api/src/modules/execution/workflow-runner.service.ts:106-151 | every run is a sequence of rounds of its first levels: it is FAILED exactly if a node of the last round failed, BLOCKED exactly if none did and a human node succeeded there, and no round follows such a one |
| `WorkflowSafety.FailureIsListed` | apps/api/src/modules/execution/workflow-runner.service.ts:114-142 | the results list a failure if and only if the run is FAILED |
| `WorkflowSafety.SeesSibling` | apps/api/src/modules/execution/workflow-runner.service.ts:108-112 | a node that starts after an earlier one of its level sees that one's output exactly if it is a start, end or decision node, or a skill without a capability |
| `WorkflowSafety.RoundWrites` | apps/api/src/modules/execution/workflow-runner.service.ts:107-143 | a level that passes leaves each of its outputs in the state and no other change |
| `WorkflowSafety.OutputsStay` | apps/api/src/modules/execution/workflow-runner.service.ts:106-151 | the outputs of finished levels are still there when a later level starts |
| `WorkflowSafety.DependenciesSucceeded` | apps/api/src/modules/execution/workflow-runner.service.ts:103-151 | a node starts only after each dependency succeeded in an earlier level, with the output of that success in the state |
| `WorkflowEquivalence.ParallelIsSequential` | apps/api/src/modules/execution/workflow-runner.service.ts:103-151 | if nodes read only ancestors, a successful run leaves the state that every dependency-respecting sequential order leaves |
| `WorkflowEquivalence.SequentialIsParallel` | apps/api/src/modules/execution/workflow-runner.service.ts:103-151 | and if some such order runs through, the run does not fail and, unless paused, ends in the same state |
| `WorkflowEquivalence.RouterIsLocal` | apps/api/src/modules/execution/node-router.service.ts:71-199 | the node router meets the locality the equivalence needs |
| `WorkflowEquivalence.RunIsAnyOrder` | apps/api/src/modules/execution/workflow-runner.service.ts:103-227 | both directions for the planner and the router together, for every node list |
| `WorkflowOrders.RunIsAnyComparableOrder` | apps/api/src/modules/execution/workflow-runner.service.ts:103-227 | the same for nodes that read only outputs of nodes before or after them, on a state that holds no node's output yet |
| `WorkflowOrders.IncomparableReadShows` | apps/api/src/modules/execution/node-router.service.ts:210-227 | the converse: a connector, agent, adapter or skill node that reads the output of a node of which neither waits for the other, along a path that can lead somewhere, has services and two orders, both running through, with different states |
| `WorkflowOrders.OrderIsInvisibleIff` | apps/api/src/modules/execution/workflow-runner.service.ts:103-227 | for lists without a person's node in which only services and skills do such reads, along such paths: the planned run ends like every order, whatever the services, if and only if nodes read only outputs of nodes before or after them |
| `WorkflowSiblings.SiblingReadMatters` | apps/api/src/modules/execution/workflow-runner.service.ts:193-227 | a node list that the planner puts into levels with a reader and its unrelated source side by side: the planned run and an order that respects the dependencies both succeed, with different states |
| `Splitting.SplitIsSplit` | apps/api/src/modules/connector/connector-runtime.ts:221-222 | the split cuts only at delimiters, each time at the first one left |
| `Splitting.SplitUnique` | apps/api/src/modules/connector/connector-runtime.ts:221-222 | that property determines the pieces |
| `Splitting.SplitAppend` | apps/api/src/modules/connector/connector-runtime.ts:221-223 | splitting more text continues from the last piece, also when a delimiter straddles the seam |
| `Splitting.HandedIsWholeStream` | apps/api/src/modules/connector/connector-runtime.ts:115-118 | for every cut into chunks, the pieces handed on are the whole stream split at once, without its unfinished tail |
| `McpClient.MCPClient.SendRequest` | apps/api/src/modules/connector/connector-runtime.ts:193-200 | registers the request under a new id with a timer before the write, and rejects when the write throws |
| `McpClient.MCPClient.SendSSERequest` | apps/api/src/modules/connector/connector-runtime.ts:206-219 | takes an id without registering anything |
| `McpClient.MCPClient.HandleMessage` | apps/api/src/modules/connector/connector-runtime.ts:230-237 | settles and forgets the pending request with the id of the message; any other message is a notification if it names a method, and else ignored |
| `McpClient.MCPClient.OnTimeout` | apps/api/src/modules/connector/connector-runtime.ts:196 | a timer removes its request and rejects |
| `McpClient.MCPClient.Close` | apps/api/src/modules/connector/connector-runtime.ts:187-191 | clears the pending map and leaves the timers running |
| `McpClient.MCPClient.ProcessBuffer` | apps/api/src/modules/connector/connector-runtime.ts:221-228 | the buffer keeps the last piece; the lines before it are handled in order |
| `McpClient.MCPClient.OnStdout` | apps/api/src/modules/connector/connector-runtime.ts:115-118 | after any chunk the buffer is exactly the text after the last newline of everything received, and the lines the chunk completed were handled in order |
| `McpClient.MCPClient.OnSse` | apps/api/src/modules/connector/connector-runtime.ts:150-158 | the same for events separated by an empty line |
| `McpClient.StdoutChunkingIrrelevant` | apps/api/src/modules/connector/connector-runtime.ts:115-228 | the session after any chunks equals the session after the whole output split at once |
| `McpClient.SseChunkingIrrelevant` | apps/api/src/modules/connector/connector-runtime.ts:150-158 | the same for the event stream, whose two-character delimiter may straddle chunks |
| `McpClient.LineMeans` | apps/api/src/modules/connector/connector-runtime.ts:221-228 | a line is handled exactly if it parses and holds a character that is not white space, by the code points that JavaScript trims |
| `McpSession.PendingIsOutstanding` | apps/api/src/modules/connector/connector-runtime.ts:193-237 | the pending map is exactly the requests sent and not yet answered, timed out or cleared |
| `McpSession.NotificationsMean` | apps/api/src/modules/connector/connector-runtime.ts:230-237 | the notifications are exactly the incoming messages that name a method and answer no outstanding request, in order |
| `McpSession.SendsOnce` | apps/api/src/modules/connector/connector-runtime.ts:194 | no id is sent twice |
| `McpSession.CallHasCause` | apps/api/src/modules/connector/connector-runtime.ts:193-237 | a response settles only the request with its id (section 5 of JSON-RPC 2.0): one with an error rejects with it, any other resolves with its result; timeouts and failed writes are the request's own |
| `McpSession.SettledIffReached` | apps/api/src/modules/connector/connector-runtime.ts:193-237 | a request is answered or timed out if and only if a later event is its timer, or a message with its id and no disconnect since it was sent |
| `McpSession.SettledAtMostOnce` | apps/api/src/modules/connector/connector-runtime.ts:193-237 | two settle calls for one request happen only when its own write threw first |
| `McpSession.SettledTwiceIff` | apps/api/src/modules/connector/connector-runtime.ts:196-199 | some request is settled twice if and only if its write threw and a later event is its timer, or a message with its id before any disconnect; a condition on the events alone |
| `McpSession.SettledTwiceExample` | apps/api/src/modules/connector/connector-runtime.ts:196-199 | and that happens: the timer of a failed write still fires |
| `McpSession.SentIsTimedOrSettled` | apps/api/src/modules/connector/connector-runtime.ts:187-237 | conservation: every request sent is either still timed or settled, never both and never lost, also after a disconnect |
| `RateLimiter.Limiter.Configure` | apps/api/src/modules/connector/connector-runtime.ts:307-314 | a full bucket with both counts zero and both windows opening now, which admits a call at once exactly if both limits are positive and the burst is at least one; the other buckets stay |
| `RateLimiter.Limiter.Check` | apps/api/src/modules/connector/connector-runtime.ts:316-327 | brings the bucket up to date and answers by minute, hour and burst in that order; an unknown connector is always allowed |
| `RateLimiter.Limiter.Consume` | apps/api/src/modules/connector/connector-runtime.ts:329 | takes a token and counts in both windows |
| `RateLimiter.Limiter.GetStats` | apps/api/src/modules/connector/connector-runtime.ts:331-336 | refills the bucket as a side effect |
| `RateLimiterRuns.TokensInRange` | apps/api/src/modules/connector/connector-runtime.ts:316-341 | tokens stay between zero and the maximum, and an admitted call always finds a whole token, so the clamp at zero never acts |
| `RateLimiterRuns.BurstBound` | apps/api/src/modules/connector/connector-runtime.ts:316-341 | calls admitted in any interval are at most the burst plus what the interval earns |
| `RateLimiterRuns.AtMostTwicePerWindow` | apps/api/src/modules/connector/connector-runtime.ts:316-327 | at most twice the minute limit in any 60 s and at most twice the hour limit in any hour |
| `RateLimiterRuns.PlainLimitWithoutReset` | apps/api/src/modules/connector/connector-runtime.ts:317-327 | over any run in which the window is not reset, calls admitted stay within the plain limit |
| `RateLimiterRuns.TwicePerWindowIff` | apps/api/src/modules/connector/connector-runtime.ts:316-329 | within an interval of at most a minute, twice the minute limit is admitted by some run if and only if the burst plus what the interval earns is that much and the hour admits a minute's calls |
| `RateLimiterRuns.TwicePerWindowHappens` | apps/api/src/modules/connector/connector-runtime.ts:321-324 | so one call per minute may become two within a millisecond |
| `RateLimiterRuns.RefillComposes` | apps/api/src/modules/connector/connector-runtime.ts:340 | refilling in two steps is refilling once |
| `RateLimiterRuns.BurstWaitIsExact` | apps/api/src/modules/connector/connector-runtime.ts:325 | after a burst refusal, with no call in between, a token is there if and only if the announced wait has passed and the bucket can hold a whole token |
| `RateLimiterRuns.MinuteWaitIsExact` | apps/api/src/modules/connector/connector-runtime.ts:321-323 | a minute refusal lasts through the announced wait and ends strictly after it |
| `RateLimiterRuns.HourWaitIsExact` | apps/api/src/modules/connector/connector-runtime.ts:322-324 | an hour refusal likewise |
| `RateLimiterRuns.StatsAreInvisible` | apps/api/src/modules/connector/connector-runtime.ts:331-336 | statistics reads never change an answer, although they refill |
| `CircuitBreaker.Breaker.CanExecute` | apps/api/src/modules/connector/connector-runtime.ts:364-375 | the answer, and the move from open to half-open once the reset timeout has passed |
| `CircuitBreaker.Breaker.RecordSuccess` | apps/api/src/modules/connector/connector-runtime.ts:377-383 | the circuit after a recorded success |
| `CircuitBreaker.Breaker.RecordFailure` | apps/api/src/modules/connector/connector-runtime.ts:385-391 | the circuit after a recorded failure |
| `CircuitBreakerRuns.ClosedCountsFailures` | apps/api/src/modules/connector/connector-runtime.ts:377-391 | while closed, the counter is the number of failures since the last success and is below the threshold |
| `CircuitBreakerRuns.OpensAfterExactly` | apps/api/src/modules/connector/connector-runtime.ts:385-391 | a closed circuit opens exactly when that number reaches the threshold |
| `CircuitBreakerRuns.AdmittedExactly` | apps/api/src/modules/connector/connector-runtime.ts:364-375 | a question is answered yes if and only if the reset timeout has passed since every earlier opening, in every run |
| `CircuitBreakerRuns.RetryIsExact` | apps/api/src/modules/connector/connector-runtime.ts:364-375 | with nothing but questions in between, the circuit admits again exactly from the announced retry on |
| `CircuitBreakerRuns.ClosesOnSecondProbe` | apps/api/src/modules/connector/connector-runtime.ts:377-383 | a half-open circuit closes exactly on the second success in that state since it last closed |
| `CircuitBreakerRuns.ProbeFailureForgotten` | apps/api/src/modules/connector/connector-runtime.ts:377-391 | those two successes need not be consecutive: a failed probe between them is not forgotten by the counter |
| `ConnectorInvoke.ConnectorService.PassGates` | apps/api/src/modules/connector/connector.service.ts:350-384 | limiter, circuit and consume as one step before the dispatch |
| `ConnectorInvoke.ConnectorService.Settle` | apps/api/src/modules/connector/connector.service.ts:386-466 | what an answer or an exception records, including the second record when the trace write throws, at the later time when it does |
| `ConnectorInvoke.ConnectorService.Invoke` | apps/api/src/modules/connector/connector.service.ts:315-466 | the whole call: 404, 503, 429 or 503 from the gates, else dispatch and record; other connectors are untouched |
| `ConnectorRuns.LimiterProjects` | apps/api/src/modules/connector/connector.service.ts:350-384 | under any overlap of calls the bucket moves as a run of the limiter alone, and dispatches are its admitted calls |
| `ConnectorRuns.DispatchBounds` | apps/api/src/modules/connector/connector.service.ts:350-390 | so dispatches keep the burst, minute and hour bounds |
| `ConnectorRuns.NoDispatchSoonAfterOpening` | apps/api/src/modules/connector/connector.service.ts:366-390 | nothing is dispatched within the reset timeout of an opening, whichever call caused it |
| `ConnectorRuns.RecordsPerCall` | apps/api/src/modules/connector/connector.service.ts:392-435 | the circuit records one outcome per finished call and one more per lost trace |
| `ConnectorRuns.OneRecordPerCallIff` | apps/api/src/modules/connector/connector.service.ts:392-456 | each finished call is recorded exactly once if and only if every trace of an answered call was written |
| `ConnectorCircuits.AccountsAreExact` | apps/api/src/modules/connector/connector.service.ts:392-435 | successes are counted for exactly the calls answered with success, failures for all other calls that came back and for lost traces |
| `ConnectorCircuits.CircuitProjects` | apps/api/src/modules/connector/connector.service.ts:366-435 | the circuit moves as the breaker's own run of the questions and outcomes of the calls |
| `ConnectorCircuits.ClosedCounts` | apps/api/src/modules/connector/connector.service.ts:366-435 | so a closed circuit counts the failures since the last success, fewer than its threshold |
| `ConnectorCircuits.OpensExactly` | apps/api/src/modules/connector/connector.service.ts:392-435 | and opens exactly with the failure that completes that many |
| `ConnectorCircuits.SuccessKeepsClosed` | apps/api/src/modules/connector/connector.service.ts:392-396 | it never opens if every call comes back with success and every trace is written |
| `ConnectorCircuits.DispatchedExactly` | apps/api/src/modules/connector/connector.service.ts:366-390 | a call within the limits is dispatched if and only if the reset timeout has passed since every earlier opening |
| `ConnectorCircuits.LogsEntry` | apps/api/src/modules/connector/connector.service.ts:350-435 | each refused call, each call that came back and each lost trace is logged as what it was |
| `BuilderValidation.ValidateStructure` | apps/api/src/modules/builder/builder-validation.service.ts:162-367 | the issues and repairs, in the order the checks report them |
| `BuilderValidation.WarningsMean` | apps/api/src/modules/builder/builder-validation.service.ts:162-367 | each kind of warning is reported exactly when its condition holds of the nodes, missing retries and paths of the node they name |
| `BuilderValidation.OffersExactlyDue` | apps/api/src/modules/builder/builder-validation.service.ts:162-367 | the repairs offered are exactly those due, said of the nodes themselves |
| `BuilderRoles.RolesMean` | apps/api/src/modules/builder/builder-validation.service.ts:26-30 | which nodes are triggers, exits, audits, branches, actions, deployments and risky |
| `BuilderRoles.LacksMean` | apps/api/src/modules/builder/builder-validation.service.ts:162-367 | what a node lacks, by its fields and settings |
| `BuilderRoles.ReportMeans` | apps/api/src/modules/builder/builder-validation.service.ts:162-367 | when a list is valid, and what is offered first |
| `BuilderRepair.ApplyRepairAction` | apps/api/src/modules/builder/builder-eval.service.ts:597-691 | unshift, push, splice and field writes on shared node objects give exactly the specified list, with no object shared twice; an empty target id is no target |
| `BuilderRepair.Renumber` | apps/api/src/modules/builder/builder-eval.service.ts:609 | the objects are renumbered from one in place |
| `BuilderRepair.InsertNumbered` | apps/api/src/modules/builder/builder-eval.service.ts:671-687 | a new object at a position, then renumbering |
| `BuilderRepair.RetryEach` | apps/api/src/modules/builder/builder-eval.service.ts:638-645 | every write or send without retry gets one |
| `BuilderEffects.RetryOneMeans` | apps/api/src/modules/builder/builder-eval.service.ts:634-637 | the retry repair of one node sets its retry fields and keeps all else, in it and in every other node |
| `BuilderEffects.RetryAllMeans` | apps/api/src/modules/builder/builder-eval.service.ts:638-645 | the global one does so for exactly the writes and sends without a retry |
| `BuilderEffects.PredicateMeans` | apps/api/src/modules/builder/builder-eval.service.ts:648-656 | the predicate repair sets three settings of its target and keeps all else |
| `BuilderEffects.PathsMean` | apps/api/src/modules/builder/builder-eval.service.ts:658-670 | the path repair keeps every branch setting that is given, adds the defaults where not, and adds the missing output keys in order of first occurrence; all else is kept |
| `BuilderEffects.AdditionsMean` | apps/api/src/modules/builder/builder-eval.service.ts:597-633 | where trigger, exit and monitor go, and that the other nodes change at most their order |
| `BuilderEffects.ApprovalMeans` | apps/api/src/modules/builder/builder-eval.service.ts:671-687 | the approval goes right before its target; without one nothing changes |
| `BuilderRepairRuns.OfferedRepairProgresses` | apps/api/src/modules/builder/builder-eval.service.ts:298-347 | for every list, repeated ids included: a repair that a fresh validation offers strictly lowers the measure if and only if it hits, that is, a retry is missing or the first node with its non-empty target id needs it |
| `BuilderRepairRuns.MissesAreUntargeted` | apps/api/src/modules/builder/builder-eval.service.ts:635-660 | with unique ids only the global retry and a branch repair with the empty id can miss, and they change nothing |
| `BuilderRepairRuns.RepairsTerminate` | apps/api/src/modules/builder/builder-eval.service.ts:597-691 | however the repairs that hit are chosen, for every list, their number plus the work left is at most the work of the first list; ids stay unique if they were |
| `BuilderRepairRuns.WorkBound` | apps/api/src/modules/builder/builder-eval.service.ts:597-691 | that work is at most 5 plus three times the number of nodes |
| `BuilderRepairRuns.SettledIsSound` | apps/api/src/modules/builder/builder-validation.service.ts:162-367 | for every list: where no offered repair hits, and no branch or missing retry is hidden from its repairs behind an earlier node of its id or, for a branch, by an empty id, the list is valid, and only the failure-path and notify-only warnings can remain |
| `BuilderRepairRuns.SoundIsSettled` | apps/api/src/modules/builder/builder-validation.service.ts:162-367 | and conversely: no offered repair hits, and nothing is hidden |
| `BuilderRepairRuns.EveryOrderSoundIff` | apps/api/src/modules/builder/builder-eval.service.ts:298-347 | for every list and every order of repairs that ends with nothing left to repair: the result is sound if and only if no branch was hidden at first, and no missing retry was unless a global retry was among the repairs |
| `BuilderRepairRuns.UniqueReach` | apps/api/src/modules/builder/builder-eval.service.ts:635-660 | with unique ids only branches with the empty id are hidden |
| `BuilderRepairRuns.RepairsReachSoundIff` | apps/api/src/modules/builder/builder-eval.service.ts:298-347 | where no missing retry is hidden, some run of offered repairs reaches that state, the empty list included, if and only if no branch is hidden |
| `BuilderRepairRuns.RepairsSettle` | apps/api/src/modules/builder/builder-eval.service.ts:298-347 | from every list, repeated ids included, some run of repairs ends where no offered one hits |
| `BuilderRepairRuns.BlankBranchIsStuck` | apps/api/src/modules/builder/builder-eval.service.ts:648-656 | where a branch with the empty id lacks a predicate, its blocking error offers a repair that leaves the list as it is, for ever |
| `BuilderRepairRuns.BlankBranchNeverSound` | apps/api/src/modules/builder/builder-eval.service.ts:648-670 | so no run of repairs makes such a list sound, unique ids or not |
| `BuilderRepairRuns.RetryAllWork` | apps/api/src/modules/builder/builder-eval.service.ts:640-645 | the global retry repair clears all missing retries and nothing else; it is a no-op if and only if there are none |
| `BuilderRepairRuns.ApprovalIsNeverOffered` | apps/api/src/modules/builder/builder-validation.service.ts:162-367 | validation never offers the approval repair |
| `BuilderReadiness.InjectPolicies` | apps/api/src/modules/builder/builder-validation.service.ts:98-156 | checkpoints and missing approvals, node by node |
| `BuilderReadiness.ComputeReadiness` | apps/api/src/modules/builder/builder-eval.service.ts:508-591 | the five scores and their weighted overall score |
| `BuilderReadiness.OverallInRange` | apps/api/src/modules/builder/builder-eval.service.ts:508-591 | the overall score is between 0 and 100 for every input |
| `BuilderRoles.ConnectorsMean` | apps/api/src/modules/builder/builder-eval.service.ts:530-541 | a missing connector costs thirty points and a placeholder ten; without connectors the score is seventy |
| `BuilderRoles.ExecutionMeans` | apps/api/src/modules/builder/builder-eval.service.ts:517-527 | what each blocking error and each structural lack costs |
| `BuilderRoles.CoverageMeans` | apps/api/src/modules/builder/builder-eval.service.ts:546-551 | the share of risky nodes left uncovered costs up to forty points, rounded to the nearest |
| `BuilderRoles.OverallMeans` | apps/api/src/modules/builder/builder-eval.service.ts:576-587 | the axes weigh 6 to 4 to 4 to 3 to 3, rounded to the nearest with halves upwards |
| `BuilderReadiness.NoCoverageLoss` | apps/api/src/modules/builder/builder-eval.service.ts:546-551 | with unique ids and checkpoints injected for the same list the coverage loss never applies |
| `BuilderReadiness.CoverageShortIff` | apps/api/src/modules/builder/builder-eval.service.ts:546-551 | for every list: risky nodes stay uncovered if and only if more of them carry a covered id than nodes are covered |
| `BuilderReadiness.ApprovalStaysMissing` | apps/api/src/modules/builder/builder-eval.service.ts:671-687 | the approval repair leaves its target's approval missing |
| `BuilderReadiness.PredicateRepairsCommute` | apps/api/src/modules/builder/builder-eval.service.ts:648-656 | the order of predicate repairs does not matter, for every list and all targets |
| `BuilderReadiness.PredicateRepairRemovesIff` | apps/api/src/modules/builder/builder-eval.service.ts:648-656 | for every list: such a repair of a reported error removes exactly one error if and only if it hits, and leaves those of other ids due |
| `BuilderReadiness.PredicateRepairRemovesOne` | apps/api/src/modules/builder/builder-eval.service.ts:648-656 | with unique ids it hits if and only if its target id is not empty, and its error is then gone |
| `BuilderReadiness.PredicateRepairsReachValidIff` | apps/api/src/modules/builder/builder-eval.service.ts:648-656 | for every list and all targets: such repairs make the list valid if and only if every branch without a predicate is the first of its id and that id is targeted and not empty |
| `BuilderReadiness.PredicateRepairsCountIff` | apps/api/src/modules/builder/builder-eval.service.ts:648-656 | with unique ids, for distinct reported errors: if and only if there are as many repairs as blocking errors and none has an empty target |
| `BuilderReadiness.PredicateRepairNeverLowers` | apps/api/src/modules/builder/builder-eval.service.ts:508-591 | for every list, no such repair of a reported error lowers the overall score; only execution readiness changes |
| `BuilderSimulation.RunSimulation` | apps/api/src/modules/builder/builder-eval.service.ts:382-502 | samples built one by one and filtered give the rates of the specified samples |
| `BuilderSimulation.RunLocalSimulation` | apps/web/src/lib/builder-harness.ts:359-414 | five counters give the same rates of the same samples |
| `BuilderSimulation.TallySnoc` | apps/web/src/lib/builder-harness.ts:381-403 | a filtered list grows exactly where a counter would |
| `BuilderSamples.FactsMean` | apps/api/src/modules/builder/builder-eval.service.ts:391-412 | what is worked out about the list, said of its nodes and gaps |
| `BuilderSamples.ExecutableMeans` | apps/api/src/modules/builder/builder-eval.service.ts:420-452 | a sample is executable if and only if nothing blocks it and its seed is high enough for everything that is lacking |
| `BuilderSamples.VerdictsMean` | apps/api/src/modules/builder/builder-eval.service.ts:454-480 | the other verdicts on a sample |
| `BuilderSamples.RatesMean` | apps/api/src/modules/builder/builder-eval.service.ts:482-502 | each rate is the percentage of the samples with its verdict |
| `BuilderSamples.PercentMeans` | apps/api/src/modules/builder/builder-eval.service.ts:482-502 | a percentage is rounded to the nearest integer, halves upwards |
| `BuilderSimulation.SampleCountsAgreeIff` | apps/api/src/modules/builder/builder-eval.service.ts:391 | both draw equally many samples if and only if every gap is a missing one or the cap of 50 acts |
| `BuilderSimulation.RatesInRange` | apps/api/src/modules/builder/builder-eval.service.ts:474-479 | rates are percentages and executable is at most generated |
| `BuilderSimulation.SeedsDiffer` | apps/api/src/modules/builder/builder-eval.service.ts:416 | the seeds of a hundred consecutive samples are pairwise distinct |
| `BuilderSimulation.UntriggeredAtMostEight` | apps/api/src/modules/builder/builder-eval.service.ts:425-430 | without a trigger at most eight of fifty samples are executable and none of ten, and both bounds are reached |
| `KillSwitch.RunInvariant` | apps/worker/src/processors/execution-processor.ts:36-209 | what every interleaving of worker and kill keeps about the row, the worker and the history |
| `KillSwitch.AtMostOneMoreStart` | apps/worker/src/processors/execution-processor.ts:80-110 | after a kill that found the execution running at most one more step handler starts, and only one whose check had passed |
| `KillSwitch.KillWinsExactly` | apps/api/src/modules/execution/execution.service.ts:262-281 | a committed kill has the last word if and only if the worker's next use of the status, if any, was not a write, whichever accesses throw |
| `KillSwitch.KillOutcomeByPosition` | apps/worker/src/processors/execution-processor.ts:48-105 | where the worker reads next when the kill commits, the kill wins; where its next access is a write, it wins if and only if that write throws |
| `KillSwitch.StatusSettles` | apps/worker/src/processors/execution-processor.ts:165-209 | once the worker is done nothing changes the status any more |
| `KillSwitch.KillOverwritten` | apps/worker/src/processors/execution-processor.ts:165-175 | a run in which a successful kill is overwritten by SUCCEEDED |
| `KillSwitch.KillLeavesRunning` | apps/api/src/modules/execution/execution.service.ts:365-384 | a run in which a kill leaves the session RUNNING for good |
| `KillHistory.HistoryTells` | apps/worker/src/processors/execution-processor.ts:48-209 | told on the actions of any run: where the worker stood when the kill committed, its first action and its first use of the status since, and how many handlers started |
| `KillHistory.FewStartsAfter` | apps/worker/src/processors/execution-processor.ts:80-110 | after the commit of a kill that found the worker started, at most one handler starts, and none unless the worker had just read that nothing was cancelled |
| `KillHistory.WonUnlessWrittenFirst` | apps/api/src/modules/execution/execution.service.ts:262-281 | once the worker is done the session is CANCELLED if and only if no write was the worker's first use of the status after the commit |
| `KillHistory.StepsAreCounted` | apps/worker/src/processors/execution-processor.ts:78-165 | where the worker stands says how many handlers have started and ended, whatever the kill does: steps are taken one after the other and none is skipped |
| `KillHistory.SucceededRanAll` | apps/worker/src/processors/execution-processor.ts:78-175 | a session that says SUCCEEDED has had every handler started and completed exactly once |
| `KillHistory.RemovedNeverStarts` | apps/api/src/modules/execution/execution.service.ts:296-312 | a job that a kill took off the queue never starts, and its session stays CANCELLED |
| `ExecutionProcessor.Session.RunExecution` | apps/worker/src/processors/execution-processor.ts:36-209 | the worker, with any of its accesses throwing and any kill steps between them: together they perform a run of the state machine, so its theorems hold of the session row; undisturbed, the session ends SUCCEEDED if and only if every access and step works, and otherwise FAILED where the accesses for that work |
| `ExecutionProcessor.Session.Finish` | apps/worker/src/processors/execution-processor.ts:165-201 | the last write and the report after it; an error in either is caught, and overwrites a SUCCEEDED already written |
| `ExecutionProcessor.Session.ExecuteStep` | apps/worker/src/processors/execution-processor.ts:77-162 | one turn of the step loop: cancellation check, time limit, step row, handler, each of which may throw |
| `ExecutionProcessor.Session.IsCancelled` | apps/worker/src/processors/execution-processor.ts:255-269 | cancelled by status or by the flag |
| `ExecutionProcessor.Session.MarkFailed` | apps/worker/src/processors/execution-processor.ts:271-286 | overwrites status and output whatever they are |
| `ExecutionProcessor.Session.Catch` | apps/worker/src/processors/execution-processor.ts:190-209 | a caught error marks the session failed unless it was cancelled when read |
| `ExecutionProcessor.Session.KillStep` | apps/api/src/modules/execution/execution.service.ts:246-384 | each access of the kill request is the state machine's action |
| `ExecutionProcessor.Session.Kill` | apps/api/src/modules/execution/execution.service.ts:246-333 | a kill with nothing between its steps succeeds exactly on a queued or running session, leaves it CANCELLED with the reason added to its output, and removes a waiting job or flags an active one |
| `CanaryGates.RulesCombine` | packages/types/src/release-engineering.ts:98-132 | the result of two rule sets together is the worse of their results |
| `CanaryGates.EvaluateMeans` | packages/types/src/release-engineering.ts:82-132 | a gate passes if all rules are met, fails if a hard one is not, and warns otherwise; what each operator asks of the distance from the threshold |
| `CanaryGates.DefaultGate` | packages/types/src/release-engineering.ts:74-132 | what the default rules ask of the metrics |
| `CanaryEvaluator.Latest` | apps/worker/src/processors/canary-evaluator.ts:75-80 | a gate of the highest window |
| `CanaryEvaluator.Evaluator.RunCanaryEvaluator` | apps/worker/src/processors/canary-evaluator.ts:23-271 | one evaluation, cut short after any number of its writes: skipped unless ACTIVE, deferred with a retry job below five executions, else a gate and a decision |
| `CanaryEvaluator.Evaluator.Act` | apps/worker/src/processors/canary-evaluator.ts:171-271 | rollback, promotion, advance with the next job, or pause |
| `CanaryRuns.RunSound` | apps/worker/src/processors/canary-evaluator.ts:23-271 | in every run, whatever breaks in it: promotions written match the outcome and number at most one, and one is missing only if something broke; PROMOTED means 100 and ROLLED_BACK 0; at most one job waits and, while ACTIVE, none exactly if the last gate warned or something broke; the queue's deduplication never drops a job; the rules never change |
| `CanaryRuns.EvaluationMeans` | apps/worker/src/processors/canary-evaluator.ts:121-271 | a failed gate rolls back exactly with automatic rollback and pauses otherwise; a passed one promotes at the maximum and else moves one step; a warning decides nothing |
| `CanaryRuns.TooFewMeans` | apps/worker/src/processors/canary-evaluator.ts:81-119 | below five executions nothing is decided and the same window is evaluated again |
| `CanaryRuns.CutShortMeans` | apps/worker/src/processors/canary-evaluator.ts:34-271 | which evaluations count as cut short |
| `CanaryRuns.RecordMissingIff` | apps/worker/src/processors/canary-evaluator.ts:171-230 | an unattended promotion or rollback lacks its record if and only if an evaluation was cut short |
| `CanaryRuns.TrafficCountsPasses` | apps/worker/src/processors/canary-evaluator.ts:202-243 | while ACTIVE, traffic is the start plus one step per passed gate, save a last one whose step was cut off, and below the maximum once moved |
| `CanaryRuns.TrafficNeverFallsIff` | apps/worker/src/processors/canary-evaluator.ts:202-243 | traffic never falls while ACTIVE if and only if the step is not negative, or the first step reaches the maximum, or no metrics pass the rules |
| `CanaryRuns.NeededIsCeiling` | apps/worker/src/processors/canary-evaluator.ts:202-213 | that number is max(1, ceil((max - start) / step)) for a positive step |
| `CanaryRuns.PromotionTakesExactly` | apps/worker/src/processors/canary-evaluator.ts:202-213 | for every step, an unattended promotion comes after exactly the number of passes needed, and not before |
| `CanaryRuns.PassingPromotes` | apps/worker/src/processors/canary-evaluator.ts:201-258 | if every evaluation passes and goes through, the canary is promoted if and only if such a number exists and as many evaluations ran |
| `CanaryRuns.CanBePromotedIff` | apps/worker/src/processors/canary-evaluator.ts:202-213 | an unattended canary can be promoted at all if and only if some metrics pass its rules and the step is positive or the first step reaches the maximum |
| `CanaryRuns.StrandedIff` | apps/worker/src/processors/canary-evaluator.ts:34-271 | an ACTIVE canary stays as it is until somebody decides by hand if and only if its last gate warned or an evaluation was cut short |
| `CanaryRuns.OneErrorStrands` | apps/worker/src/processors/canary-evaluator.ts:34-79 | an error before the first write of the first evaluation is enough |
| `CanaryRuns.Unmoved` | apps/worker/src/processors/canary-evaluator.ts:45-48 | the evaluator never touches a deployment that is not ACTIVE |
| `BusWire.StreamKeyInjective` | apps/api/src/modules/agent-kernel/bus.service.ts:76-78 | tenants do not share streams |
| `BusWire.FieldsToObject` | apps/api/src/modules/agent-kernel/bus.service.ts:273-277 | the loop over alternating names and values builds the object in which later values win |
| `BusWire.ReceivedIsSent` | apps/api/src/modules/agent-kernel/bus.service.ts:105-118 | a message survives its stream entry, except that empty texts become absent |
| `BusWire.ArrivesUnchangedIff` | apps/api/src/modules/agent-kernel/bus.service.ts:195-208 | it arrives unchanged if and only if it has no empty optional text and a payload |
| `MessageBus.A2ABus.Publish` | apps/api/src/modules/agent-kernel/bus.service.ts:88-160 | the row is stored before the entry is appended; if appending throws only the row is there |
| `MessageBus.A2ABus.EnsureGroup` | apps/api/src/modules/agent-kernel/bus.service.ts:173-179 | an existing group keeps its cursor whatever start is asked for |
| `MessageBus.A2ABus.ReadNew` | apps/api/src/modules/agent-kernel/bus.service.ts:185-190 | new entries are handed out once and become pending |
| `MessageBus.A2ABus.ProcessEntry` | apps/api/src/modules/agent-kernel/bus.service.ts:193-216 | an entry is acknowledged only after its handler returned; an error leaves it pending and the consumer goes on |
| `MessageBus.A2ABus.Poll` | apps/api/src/modules/agent-kernel/bus.service.ts:183-217 | one turn of the loop, for every batch size and every outcome of handlers and acknowledgements |
| `MessageBus.WorkedMeans` | apps/api/src/modules/agent-kernel/bus.service.ts:191-217 | it acknowledges exactly the new entries whose handler and acknowledgement both worked |
| `MessageBusArrivals.PolledMeans` | apps/api/src/modules/agent-kernel/bus.service.ts:183-217 | a turn hands out the next entries, as many as there are and as the batch allows, and leaves pending exactly those whose handler or acknowledgement failed |
| `MessageBusArrivals.EntryMeans` | apps/api/src/modules/agent-kernel/bus.service.ts:193-216 | however an entry fares the consumer goes on to the next, and only an acknowledgement takes it off the pending list |
| `MessageBusRuns.RunSound` | apps/api/src/modules/agent-kernel/bus.service.ts:88-217 | invariants of every interleaving of publishers and consumers with deaths at any point |
| `MessageBusRuns.StartsWhereCreated` | apps/api/src/modules/agent-kernel/bus.service.ts:173-179 | a group starts at the beginning of its stream if asked to, and else at the end as it was when the group was created |
| `MessageBusRuns.DeliveredOnceInOrder` | apps/api/src/modules/agent-kernel/bus.service.ts:181-217 | a group's deliveries are the entries since its creation, in order and each once; delivered is acknowledged plus pending, disjoint; acknowledged only after the handler returned |
| `MessageBusRuns.DeliveredIsStored` | apps/api/src/modules/agent-kernel/bus.service.ts:88-217 | every delivered entry refers to a stored message of the subscriber's tenant, arrives as that message, and is in a replay that is long enough |
| `MessageBusRuns.FailedHandlerIsFinal` | apps/api/src/modules/agent-kernel/bus.service.ts:209-215 | an entry whose handler threw is never delivered to its group again nor acknowledged |
| `MessageBusRuns.DeadConsumerIsFinal` | apps/api/src/modules/agent-kernel/bus.service.ts:183-217 | nor is anything a dead consumer had in hand |
| `MessageBusRuns.LostPublicationIsFinal` | apps/api/src/modules/agent-kernel/bus.service.ts:88-118 | a message stored but not appended never reaches any stream |
| `MessageBusArrivals.PublishingIsOnItsWay` | apps/api/src/modules/agent-kernel/bus.service.ts:88-118 | a message is half published exactly if it was stored and neither appended nor given up since |
| `MessageBusArrivals.ArrivesIffAppended` | apps/api/src/modules/agent-kernel/bus.service.ts:88-118 | a message is in the stream of its tenant if and only if it was appended after it was stored, once |
| `MessageBusRuns.ReplayCoversIff` | apps/api/src/modules/agent-kernel/bus.service.ts:249-255 | a replay holds the whole history of a mission if and only if it has at most `limit` messages |
| `SchemaValidator.Validate` | apps/api/src/modules/execution/schema-validator.service.ts:32-36 | the errors, and validity exactly when there are none |
| `SchemaValidator.ValidateNode` | apps/api/src/modules/execution/schema-validator.service.ts:38-121 | the recursive walk appends exactly the specified errors to the shared list and removes none |
| `SchemaValidator.CheckObject` | apps/api/src/modules/execution/schema-validator.service.ts:57-81 | missing members, then members against their sub-schemas, then extra members |
| `SchemaValidator.CheckArray` | apps/api/src/modules/execution/schema-validator.service.ts:83-94 | items in order, then the two size bounds |
| `SchemaConformance.ValidIffConforms` | apps/api/src/modules/execution/schema-validator.service.ts:32-134 | no error is found if and only if the data satisfy a recursive declarative predicate, a null required member counting as missing |
| `SchemaKeywords.TypeMeans` | apps/api/src/modules/execution/schema-validator.service.ts:122-134 | which values each type name accepts; a name that is not known accepts all |
| `SchemaKeywords.BoundsMean` | apps/api/src/modules/execution/schema-validator.service.ts:88-120 | what a bound rejects; one that is no number bounds nothing |
| `SchemaKeywords.EnumMeans` | apps/api/src/modules/execution/schema-validator.service.ts:50-54 | what an enumeration rejects |
| `SchemaKeywords.PatternMeans` | apps/api/src/modules/execution/schema-validator.service.ts:104-109 | what a pattern rejects |
| `SchemaKeywords.PresenceMeans` | apps/api/src/modules/execution/schema-validator.service.ts:57-64 | when a required member counts as there |
| `SchemaKeywords.RequiredMeans` | apps/api/src/modules/execution/schema-validator.service.ts:58-60 | which keys are required |
| `SchemaConformance.UntypedChecksEnumOnly` | apps/api/src/modules/execution/schema-validator.service.ts:38-54 | without a type, or with a list of types, only the enumeration is checked |
| `SchemaConformance.ErrorsUnder` | apps/api/src/modules/execution/schema-validator.service.ts:38-121 | which errors are found does not depend on the starting path; it is only put in front |
| `SchemaConformance.ErrorsExtendPath` | apps/api/src/modules/execution/schema-validator.service.ts:38-121 | every error is placed at or below the starting path |
| `SchemaFaults.Reported` | apps/api/src/modules/execution/schema-validator.service.ts:38-134 | an error of a kind is in the list for a place if and only if the place is at fault in that way: a value by its own keywords, a key by being required or extra, a member or item against its sub-schema |
| `PackDomain.IndexOf` | apps/worker/src/processors/pack-import-pipeline.ts:331-333 | the place of a status in the pipeline order, -1 exactly outside it |
| `PackDomain.LegalPathsClimb` | packages/types/src/pack-domain.ts:76-84 | along any legal path the rank strictly grows, so no status comes back |
| `PackDomain.NextIsTheLegalMove` | packages/types/src/pack-domain.ts:76-132 | the next pipeline status is exactly the one legal move for an administrator that stays in the pipeline |
| `PackFailures.MovesMean` | packages/types/src/pack-domain.ts:76-120 | only a platform administrator blocks a version; every other legal move goes one place up, as far as the role may |
| `PackFailures.ReachesIff` | packages/types/src/pack-domain.ts:76-120 | a role can bring a version to a status by legal moves if and only if it is a later one and not beyond the role's last: VALIDATED for an operator, DEPRECATED for a tenant administrator |
| `PackPipeline.PipelineRun.TransitionVersion` | apps/worker/src/processors/pack-import-pipeline.ts:405-420 | the checked status write |
| `PackPipeline.PipelineRun.StageNormalize` | apps/worker/src/processors/pack-import-pipeline.ts:111-164 | pack found or created, an existing version refused, a new one created in DRAFT |
| `PackPipeline.PipelineRun.StageValidate` | apps/worker/src/processors/pack-import-pipeline.ts:167-210 | the limits, the DRAFT rewrite on rejection, else the move to IMPORTED |
| `PackPipeline.PipelineRun.StageCertify` | apps/worker/src/processors/pack-import-pipeline.ts:242-258 | the certification row is written before the status |
| `PackPipeline.PipelineRun.StageSign` | apps/worker/src/processors/pack-import-pipeline.ts:261-278 | the checksum is the hash of the manifest |
| `PackPipeline.PipelineRun.StageInstall` | apps/worker/src/processors/pack-import-pipeline.ts:296-315 | an installation only if asked for and a tenant is known |
| `PackPipeline.PipelineRun.RunStages` | apps/worker/src/processors/pack-import-pipeline.ts:353-388 | the loop with its early stop, its two progress reports a stage and its first failure |
| `PackPipeline.PipelineRun.RunPackImportPipeline` | apps/worker/src/processors/pack-import-pipeline.ts:337-401 | the outcome: completed, failed at a stage, or nothing created |
| `PackPipelineRuns.RunKnown` | apps/worker/src/processors/pack-import-pipeline.ts:353-388 | for every target, source and set of failing accesses and reports, the state is that of so many successful stages, or differs from it only by what the failing stage had already done |
| `PackPipelineRuns.StatusWritesAreLegalIff` | apps/worker/src/processors/pack-import-pipeline.ts:154-291 | the statuses written form a legal path from DRAFT, although publishing skips the check, if and only if validation rejected no manifest |
| `PackPipelineRuns.DraftRewrittenIff` | apps/worker/src/processors/pack-import-pipeline.ts:167-210 | DRAFT is written twice exactly if it does: validation is reached, with no report before it throwing, the manifest is not acceptable, and the write itself does not fail |
| `PackPipelineRuns.RejectionHappens` | apps/worker/src/processors/pack-import-pipeline.ts:167-210 | and that happens: a manifest that asks for too much concurrency |
| `PackPipelineRuns.CompletesAtStop` | apps/worker/src/processors/pack-import-pipeline.ts:354-392 | a completed run leaves the version exactly at the target status, PUBLISHED without one |
| `PackPipelineRuns.OutsideCreatesNothing` | apps/worker/src/processors/pack-import-pipeline.ts:360-392 | a target outside the pipeline order writes nothing and the run throws |
| `PackPipelineRuns.CreatedIsAccounted` | apps/worker/src/processors/pack-import-pipeline.ts:242-315 | however the run ends, certified precedes CERTIFIED, checksum precedes PUBLISHED and PUBLISHED precedes installation |
| `PackPipelineRuns.ExistingVersionBlocks` | apps/worker/src/processors/pack-import-pipeline.ts:124-135 | importing an existing version changes nothing |
| `PackPipelineRuns.RetryNeverResumes` | apps/worker/src/processors/pack-import-pipeline.ts:111-164 | a run that created its version can never be repeated with success: the version stays where a failure left it |
| `PackPipelineRuns.RetrySucceedsIff` | apps/worker/src/processors/pack-import-pipeline.ts:111-164 | an import repeated with nothing in its way completes if and only if the first attempt ended before it created the version |
| `PackFailures.FailsAtFirstHindered` | apps/worker/src/processors/pack-import-pipeline.ts:111-401 | an import fails at a stage if and only if it gets there and that stage is the first that something hinders: a report or an access of its own that throws, a source that does not answer or parse, an existing version, a manifest above a limit |
| `PackFailures.CompletesIff` | apps/worker/src/processors/pack-import-pipeline.ts:337-401 | an import completes if and only if its target is in the pipeline and nothing hinders a stage before it |
| `AgentRegistry.AgentRegistryService.RecordInvocation` | apps/api/src/modules/capability-registry/agent-registry.service.ts:86-103 | one recorded invocation; an unknown agent changes nothing |
| `AgentRegistry.RateInRange` | apps/api/src/modules/capability-registry/agent-registry.service.ts:91-93 | the rate stays between 0 and 1 |
| `AgentRegistry.HistoryFades` | apps/api/src/modules/capability-registry/agent-registry.service.ts:91-93 | the same outcomes bring two rates together by exactly a tenth a call |
| `AgentRegistry.SuccessesOnlyHelp` | apps/api/src/modules/capability-registry/agent-registry.service.ts:91-93 | turning failures into successes never lowers the rate |
| `AgentRegistry.SevenInARowDecide` | apps/api/src/modules/capability-registry/agent-registry.service.ts:91-100 | from any rate seven failures in a row end DEGRADED and seven successes AVAILABLE |
| `AgentRegistry.SixInARowDecideIff` | apps/api/src/modules/capability-registry/agent-registry.service.ts:91-100 | six in a row decide if and only if the rate was close enough already |
| `AgentRegistry.FreshAgentSurvivesSixFailures` | apps/api/src/modules/capability-registry/agent-registry.service.ts:90-100 | so seven is exact for an agent never invoked before |
| `AgentRegistry.InvocationOverridesOperator` | apps/api/src/modules/capability-registry/agent-registry.service.ts:94-101 | one invocation takes an agent out of the states an operator put it in |

## Left out

- Message texts, labels, icons, timestamps inside issues, audit rows and log lines: no claim depends on them; errors and issues are kinds with their place or node.
- Floating-point rounding, NaN and infinities: rates and scores are exact reals; a metric that is not a number is one without a value.
- Inherited object members, number conversion and texts of non-string keys: parameters of the router and the validator; the validator's schemas have own members only.
- `WorkflowOrders.OrderIsInvisibleIff`: lists with a person's node, which pauses the run; and, between nodes of which neither waits for the other, reads by a decision and reads along a path that no output of a start, end, decision or skill node is known to have.
- Connector, agent, adapter and skill services behind the node router: one function of the node and its resolved input.
- Missions, execution rows and traces written during a workflow run: they never change its course, except that a failing trace write is modelled in `ConnectorInvoke`.
- Builder plans: `repair()` picks a repair from the stored validation, which can be out of date; the loop here takes repairs from a fresh validation of the list they are applied to. Ids of added nodes are assumed new, where the code derives them from the clock.
- `BuilderRepairRuns.RepairsReachSoundIff`: whether some run reaches a sound list where only a global retry reaches a missing one; what each run reaches is `BuilderRepairRuns.EveryOrderSoundIff`.
- The constant contents of nodes that repairs add, beyond what `BuilderEffects.AdditionsMean` and `BuilderEffects.ApprovalMeans` state: default settings, schedules and timeouts.
- The browser's own copies of validation, repair and readiness: only its simulation, the part with a different algorithm, is modelled beside the server's.
- Prompt analysis, template tables, connector gap resolution and pricing in the builder: data and heuristics.
- Time: one clock reading per limiter or circuit operation, where the code reads it again inside; UTF-8 characters split across chunks are not modelled, chunks are texts.
- `RateLimiter.Limiter.Configure`: called in the middle of a run it resets the bucket; the run theorems take a bucket configured once, and likewise a circuit initialised once.
- `McpClient.MCPClient.SendSSERequest`: the answer of the POST request is not modelled, only the id it takes.
- HTTP, process and transport handling of the MCP client, its connection states and tool list.
- The steps of an execution, of which the code makes three or five: any number here, each with an arbitrary outcome; step rows and traces never change the session row.
- Several kills of one session, and the queue's own retries of a job: one worker and one kill.
- `CanaryEvaluator.Evaluator.RunCanaryEvaluator`: the metrics are inputs; their collection from execution sessions (percentiles and averages) is not modelled. A start whose first job is not queued is the same as a first evaluation that breaks at once.
- The API's own gate evaluation endpoint, which can run beside the evaluator and does queue a job after a warning.
- The output comparison and shadow runs next to the gate rules.
- Redis retention: the code never trims a stream, so none is modelled; entries are numbered by their place instead of by time. Two rows created in the same instant are replayed in order of creation.
- `MessageBus.A2ABus.Publish`: the trace breadcrumb after the two writes, whose failure is ignored.
- Stopping consumers and closing connections, beyond a consumer dying at any point.
- `SchemaValidator.ValidateNode`: two arrays or objects are never the same value for `enum`, as for values built separately; patterns are an abstract matcher.
- Manifest parsing and key normalisation of packs: an abstract result and an abstract function; the hash is abstract too.
- Stage timeouts of the import pipeline, after which a timed-out stage keeps running beside the failure.
- Warnings gathered by the import pipeline, which decide nothing.
- Later life of a pack version (deprecating, blocking, installing by hand): only its legal moves are stated.
- Agent lookup by tenant and the statistics beside the success rate.
- Handoffs, invoices, alerts, controllers, authentication and the user interface: few guards, or plumbing.
