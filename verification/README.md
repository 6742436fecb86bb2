# j-harness: a verified model

j-harness runs LLM agents as queued jobs and as DAG pipelines with routers. This project models the parts of it
that decide anything and proves what they promise, over every input, every completion order, every interleaving
and every restart.

| part | Dafny modules | source |
|---|---|---|
| dependency graph | `Graph` | `internal/pipeline/graph.go` |
| templates, paths, routes | `Template`, `TemplateLaws`, `Paths`, `Routing` | `internal/pipeline/{template,resolve,condition}.go` |
| pipeline scheduler | `Scheduler`, `Reference`, `Runs`, `RunTheorems`, `Causes`, `Progress`, `Clearing`, `Drains`, `SinkLoss`, `Stalls`, `EndToEnd`, `Examples` | `internal/engine/pipeline.go` |
| worker pool | `WorkerPool`, `WorkerLaws`, `WorkerCalls` | `internal/engine/worker.go` |
| Redis store | `RedisModel`, `RedisStore`, `RedisCalls`, `RedisRuns` | `internal/store/redis/redis.go` |
| worker pool on the Redis store | `PoolOverRedis` | both of the above |
| RESP client and connection pool | `Resp`, `RespLaws`, `ConnPool` | `internal/store/redis/client.go` |
| arithmetic evaluator | `Calculator`, `CalculatorLaws`, `CalculatorPrinter` | `internal/tools/eval.go` |
| schema validator | `Schema`, `SchemaLaws` | `internal/schema/schema.go` |
| retry and backoff | `Backoff` | `internal/llm/retry.go` |

`Prelude`, `Text`, `Decimal`, `Json`, `Model` and `Jobs` hold the shared data types and the few standard-library
functions the code relies on. `dafny verify dfyconfig.toml` checks everything.

## How the pieces are modelled

**Scheduler.** `Scheduler.RunPipeline` is the owner loop: the `Owner` class holds `pending`, `state`, `results`,
`outputs`, `inflight`, `failure` and `tokens`, and a completion is an arbitrary choice among the steps in flight. A
run is a trace of received completions, `BoardAfter` the state after it, `ExitFrom` the way the loop leaves.
`RunPipeline` is proved to be one of those runs and to end. An agent call is a fixed function of agent id and
input, which may also be interrupted by cancellation; the registry does not change during a run.

The meaning of a pipeline is given without any schedule in `Reference`: a table with one verdict per step (done with
this output and tokens, skipped, halted) fixed by the verdicts of its dependencies, by what its agent answers and by
which route its input chooses. The table exists and is unique for every acyclic plan. `RunTheorems` shows that every reachable state of every completion order agrees with it.

**Worker pool.** Each access to the store or the queue is one atomic step; Submit calls, the startup requeue and the
workers interleave freely; a store call may succeed, fail, or fail after taking effect; the process may die between
any two steps. `WorkerCalls` writes Submit, Enqueue, RequeueOrphans and run as methods over the shared fields and
shows that each is a run of that protocol.

**Redis.** The keyspace is a map of typed values; each command and each MULTI/EXEC transaction is one atomic step.
`RedisCalls` runs the calls one at a time; `RedisRuns` interleaves any number of them, abandoned ones included.
`PoolOverRedis` puts the pool on top: each of its writes is a Redis call of several commands, and the tickets are
shown to keep the writes of one session apart.

**Numbers, text, JSON.** Evaluator arithmetic is abstract, with no law assumed. JSON documents are trees with real
numbers; decoding, printing and regular expressions are functions passed in (`Json.Codec`). 64-bit integers wrap
where the code lets them wrap. Characters stand for bytes in the RESP and evaluator modules and for code points elsewhere.

## Where the code and its own promises differ

- `tasks/lessons.md:75-78` asks that in-flight work be drained before the loop exits; the guard at
  `internal/engine/pipeline.go:162` looks at the pending steps only. `Examples.LostCompletion` is a two-step
  pipeline that loses a completed step. `Drains.OnlyGuardLosesWork` shows that the guard is the only cause and what
  is lost; `Drains.DrainsIff` gives the exact condition with routers, `SinkLoss.RouterFreeDrainsIff` the one without,
  inputs that fail to resolve included.
- `internal/engine/pipeline.go:197-199` takes a stall for impossible in an acyclic graph. `Examples.StallReached`
  reaches it in a pipeline that passes the registry's checks on ids, references, needs, routes and cycles;
  `Progress.StallHasCause` says what every stall looks like, `Progress.NoStall` gives a condition under which
  none happens and `Stalls.StallsIf` one under which some run does stall.
- `internal/engine/worker.go:80-82` says a job turned away by a full queue can be picked up later. It never is
  (`WorkerLaws.RejectedIsStranded`, `WorkerLaws.StrandedForever`): a new process picks up exactly the RUNNING jobs
  (`WorkerLaws.RestartTicketsIff`), so even a queued job is lost when the process dies
  (`WorkerLaws.RestartStrandsPending`).
- `internal/store/redis/redis.go:193-218` reads the old status before its transaction. Two overlapping writes leave
  hash and index in agreement exactly when the first changes nothing or both write the same status
  (`RedisRuns.OverlapAgreesIff`), and a write to a session whose creation stopped half way always breaks agreement
  (`RedisRuns.HalfMadeWriteBreaks`).
- `internal/llm/retry.go:105` announces a wait in [d/2, d); the wait can be d (`Backoff.Wait`). The first attempt is
  not clamped to MaxDelay and a doubling may overflow; `Backoff.BackoffExactIff` is the exact condition for the
  promised delays.
- The two path walkers differ on signed and overflowing indexes; `Paths.WalkersAgreeIff` is the exact condition.
- A status or error line with a line feed in it does not survive the reply reader; `RespLaws.RoundTripIff` is exact.

## Model

| member | source | states |
|---|---|---|
| `Graph.DepTable.Touch` | internal/pipeline/graph.go:39-42 | gives a step an entry and adds no edge |
| `Graph.DepTable.Add` | internal/pipeline/graph.go:26-37 | adds exactly one edge, keeps lists duplicate-free and the seen sets in step with them |
| `Graph.AddMentions` | internal/pipeline/graph.go:43-55 | adds exactly the edges of the template references; fails exactly when one names no step, and says which |
| `Graph.AddNeeds` | internal/pipeline/graph.go:56-64 | adds exactly the needs edges; fails exactly on a self-need or an unknown need |
| `Graph.AddTargets` | internal/pipeline/graph.go:65-72 | adds an edge from the router to every target; fails exactly on an unknown target |
| `Graph.AddStep` | internal/pipeline/graph.go:39-73 | one step's edges and no others, or a fault that really is in that step |
| `Graph.CollectEdges` | internal/pipeline/graph.go:20-73 | succeeds exactly when every step passes its checks; the result is the duplicate-free union of template, needs and route edges |
| `Graph.Search.Visit` | internal/pipeline/graph.go:82-113 | three-colour search: blackens what it visits with a rank above its dependencies, or returns a step on a cycle; terminates on the number of white steps |
| `Graph.CheckAcyclic` | internal/pipeline/graph.go:82-113 | reports nothing if and only if there is no cycle; then every step is ranked above its dependencies, otherwise the named step is on a cycle |
| `Graph.RankedIsAcyclic` | internal/pipeline/graph.go:82-113 | a ranking rules out cycles of any length |
| `Graph.CycleIff` | internal/pipeline/graph.go:20-113 | cycles of the dependency map are exactly the cycles of the declared edges |
| `Graph.Deps` | internal/pipeline/graph.go:20-80 | succeeds if and only if all steps pass their checks and the edges form no cycle; a cycle error names a step on one, any other error a real fault |
| `Template.ParseRefs` | internal/pipeline/template.go:48-65 | the loop returns the references of the leftmost matches in order, or the first invalid one |
| `Template.ResolveReference` | internal/pipeline/resolve.go:54-76 | looks up an input, a whole output or a path in one, with the error of whatever is missing |
| `Template.Replacements` | internal/pipeline/resolve.go:34-41 | tabulates the value of every reference, or returns the first that fails |
| `Template.Substitute` | internal/pipeline/resolve.go:43-51 | copies literals and replaces matches, without looking at the inserted text again |
| `Template.Resolve` | internal/pipeline/resolve.go:25-76 | both loops together compute the resolved text or the first failure |
| `TemplateLaws.RenderParses` | internal/pipeline/template.go:48-91 | for any sequence of brace-free literals and well-formed references, parsing the rendering gives back exactly those references |
| `TemplateLaws.AcceptsIff` | internal/pipeline/template.go:48-91 | ParseRefs accepts a text if and only if it is such a rendering |
| `TemplateLaws.ResolveIsSubstitution` | internal/pipeline/resolve.go:25-76 | resolving a rendering is one-pass substitution of each slot: the input of that name, a step's output, or with a path the text of the node the path leads to in that output read as JSON |
| `TemplateLaws.ResolveFailsIff` | internal/pipeline/resolve.go:25-105 | resolution fails with an error if and only if the first slot without a value has that error: a name not in scope, an output that is not JSON, or the place where a path gets stuck |
| `TemplateLaws.FirstFailureIff` | internal/pipeline/resolve.go:25-76 | resolution fails if and only if some reference is unresolvable |
| `TemplateLaws.ResolvedLocal` | internal/pipeline/resolve.go:25-76 | resolution depends on nothing in scope but the text's own references |
| `TemplateLaws.ResolveFailsOnlyOnPath` | internal/pipeline/resolve.go:54-76 | with all inputs and outputs in scope only a JSON path lookup can fail |
| `Paths.LookupPath` | internal/pipeline/resolve.go:80-105 | the cursor loop computes the path lookup, error cases included |
| `Paths.LookupMeans` | internal/pipeline/resolve.go:80-130 | the result is the text of the node the path leads to (strings unquoted, null empty), and an error if and only if the document does not decode or the path gets stuck there |
| `Paths.Atoi` | internal/pipeline/condition.go:125-137 | the wrapping accumulator computes the numeral modulo 2^64, and rejects empty and non-digit text |
| `Paths.WalkPath` | internal/pipeline/condition.go:84-109 | the cursor loop computes the dotted walk |
| `Paths.WalkFinds` | internal/pipeline/condition.go:84-109 | a node is found if and only if the field leads to it |
| `Paths.WalkersAgreeIff` | internal/pipeline/condition.go:84-137 | the two walkers agree on every document if and only if every segment is free of signs and 64-bit overflow |
| `Paths.SignedZeroDisagrees` | internal/pipeline/resolve.go:80-105 | the segment "-0" is an index for lookupPath only |
| `Paths.OverflowDisagrees` | internal/pipeline/condition.go:125-137 | every numeral past int64 whose low 64 bits fall in range is an index for walkPath only |
| `Routing.EvaluateCondition` | internal/pipeline/condition.go:15-54 | true if and only if the field leads to a node the single operator accepts: equals and in by text for a string operand and by marshalled form otherwise, notEquals by their failure, matches by the expression's verdict on the text, exists by a text that is not empty; each error if and only if its own cause |
| `Routing.OperatorLaws` | internal/pipeline/condition.go:25-54 | notEquals holds when the field is there and equals does not, in when equals does for some operand, and nothing holds of an absent field |
| `Routing.PickRoute` | internal/pipeline/condition.go:57-80 | a target if and only if it is that of the first route whose condition is true with every earlier one decided false, or of the last default when all are; an error if and only if the first condition not decided false has it, or all are and there is no default |
| `Routing.PickedIsTarget` | internal/pipeline/condition.go:57-80 | the chosen step is one of the declared targets |
| `Scheduler.Owner.CheckDeps` | internal/engine/pipeline.go:105-120 | the loop over dependencies decides ready, skip or wait |
| `Scheduler.Owner.Launch` | internal/engine/pipeline.go:122-160 | resolves the input, then starts the step or records the failure |
| `Scheduler.Owner.AdmitAll` | internal/engine/pipeline.go:165-189 | one admission pass in declared order |
| `Scheduler.Owner.MarkLosers` | internal/engine/pipeline.go:211-215 | marks every route target but the chosen one as skipped |
| `Scheduler.Owner.Receive` | internal/engine/pipeline.go:204-225 | applies one completion to state, results, outputs, tokens and failure |
| `Scheduler.Turn` | internal/engine/pipeline.go:162-226 | one turn of the loop: leaves as ExitFrom says, or receives some step in flight |
| `Scheduler.IterationProgress` | internal/engine/pipeline.go:162-226 | every iteration leaves strictly less pending plus in-flight work |
| `Scheduler.OwnerLoop` | internal/engine/pipeline.go:162-247 | the loop ends, and its result is that of some trace of completions |
| `Scheduler.CollectOutcomes` | internal/engine/pipeline.go:278-288 | one outcome per step in declared order, SKIPPED for steps without a result |
| `Scheduler.FinalOutput` | internal/engine/pipeline.go:251-275 | the output template, else the last completed agent step |
| `Scheduler.ScopeInputs` | internal/engine/pipeline.go:59-66 | keeps exactly the declared inputs; fails exactly when one is missing |
| `Scheduler.IndexSteps` | internal/engine/pipeline.go:68-75 | the declared order and the step table mirror the step list |
| `Scheduler.RunPipeline` | internal/engine/pipeline.go:46-247 | fails with a graph problem exactly when one exists, and names a real one; with a missing input only when one is missing; otherwise the graph is sound and the result is that of a run of the modelled loop |
| `Reference.ReferenceExists` | internal/engine/pipeline.go:105-226 | every acyclic plan has a reference table |
| `Reference.ReferenceUnique` | internal/engine/pipeline.go:105-226 | and only one |
| `Runs.AdmitKeeps` | internal/engine/pipeline.go:165-189 | the run invariant survives an admission pass from any index |
| `Runs.WorkMeans` | internal/engine/pipeline.go:135-159 | what a step reports is its reference verdict: the agent's own output and tokens, or the step the chosen route leads to, and a failure otherwise |
| `Runs.ReceiveKeeps` | internal/engine/pipeline.go:204-225 | and any completion |
| `Runs.RunKeeps` | internal/engine/pipeline.go:162-226 | so it holds at the loop head and after admission in every run |
| `RunTheorems.PlanIsValid` | internal/registry/registry.go:230-339 | a pipeline that passed registry validation yields a plan the theorems apply to |
| `RunTheorems.RefinesReference` | internal/engine/pipeline.go:105-226 | in every reachable state a completed step has exactly its reference output and outcome, a skipped one is skipped in the reference, a failed one halts there or was interrupted, and each started step has its reference input |
| `RunTheorems.LaunchSafety` | internal/engine/pipeline.go:122-189 | no step starts twice; a started step has all dependencies completed with outputs in scope and is no skipped step; launch-time resolution fails only on a JSON path |
| `RunTheorems.SkipSpreads` | internal/engine/pipeline.go:105-189 | everything downstream of a skipped step is skipped |
| `RunTheorems.LoserIsSkipped` | internal/engine/pipeline.go:211-215 | every losing route target is skipped |
| `RunTheorems.FailureStopsStarts` | internal/engine/pipeline.go:165-169 | after the first failure no further step starts and the failure is never replaced, however the run goes on |
| `RunTheorems.DrainedResult` | internal/engine/pipeline.go:228-247 | a drained run without failure returns exactly the reference result: outcomes, tokens, final output |
| `RunTheorems.FinalIsReference` | internal/engine/pipeline.go:251-275 | the final output is the output template filled in, or without one the output of the last declared agent step that completes |
| `Causes.DoneIsGenuine` | internal/engine/pipeline.go:135-159 | a completed agent outcome carries what its agent answers to its resolved input; a completed router's route leads to a step |
| `Causes.RunCauses` | internal/engine/pipeline.go:124-226 | in every run each FAILED step was started, or its template failed on a path, and its error is that of its own template, routes or agent, or an interruption of its agent |
| `RunTheorems.Deterministic` | internal/engine/pipeline.go:46-247 | any two drained runs without failure return the same result |
| `RunTheorems.FailsIffHalted` | internal/engine/pipeline.go:162-226 | without interruption, a run that leaves with nothing in flight failed if and only if the reference halts somewhere |
| `Progress.StallHasCause` | internal/engine/pipeline.go:165-202 | every stall has a pending step before a dependency that was skipped later in the same pass because of a skipped dependency of its own |
| `Progress.NoStall` | internal/engine/pipeline.go:165-202 | no run stalls when no forward dependency has a dependency behind a route |
| `Progress.NoStallSimple` | internal/engine/pipeline.go:165-202 | in particular without routers, or with dependencies declared first |
| `Stalls.StallsIf` | internal/engine/pipeline.go:105-202 | nothing halts, a step is declared before its first skipped dependency, no router skips it directly, and that dependency is not decided until some step with only skipped dependents completes, which does not skip it directly: some run stalls |
| `Clearing.RunClears` | internal/engine/pipeline.go:105-226 | in every run, while a set of steps has no status, each step already marked skipped is decided without them: by a router outside the set, or behind completed dependencies outside it by a skipped one that is decided too |
| `Drains.OnlyGuardLosesWork` | internal/engine/pipeline.go:162-202 | however a run leaves the loop, nothing is in flight, or nothing was pending and every step left in flight was started, runs in the reference with only skipped dependents, and is reported SKIPPED |
| `Drains.OneLiveSinkDrains` | internal/engine/pipeline.go:162-226 | routers and failures included: if at most one step that runs has only skipped dependents, no run loses a completion |
| `Drains.InnerHaltDrains` | internal/engine/pipeline.go:162-226 | nor if some step with a dependent that is not skipped never completes: the dependent stays pending |
| `Drains.OneSinkDrains` | internal/engine/pipeline.go:162-226 | without routers, at most one step without dependents means no completion is ever lost, failures and interruptions included |
| `Drains.PairLoses` | internal/engine/pipeline.go:162-226 | from any run that has received neither of two steps with only skipped dependents, without which every skipped step is decided, some continuation loses one of them |
| `Drains.LossHasPair` | internal/engine/pipeline.go:162-226 | every run that loses a completion, of any valid pipeline, ends on such a pair |
| `Drains.DrainsIff` | internal/engine/pipeline.go:162-226 | with or without routers (forward dependencies safe, inputs resolving): no run loses a completion if and only if there is no such pair, or some step with a dependent that is not skipped never completes |
| `SinkLoss.RouterFreeDrainsIff` | internal/engine/pipeline.go:105-226 | without routers and with no further assumption: no run loses a completion if and only if some step with dependents never completes, or fewer than two steps without dependents are ever started, or some input fails to resolve that cannot be the last thing a pass comes to |
| `SinkLoss.LossShows` | internal/engine/pipeline.go:105-226 | a lossy run of a router-free pipeline has two started steps without dependents, and at most one input that fails to resolve, met last |
| `SinkLoss.SteeredLoses` | internal/engine/pipeline.go:105-226 | such an input behind a dependency whose other dependents are declared earlier and have none themselves: from any run open at that dependency, some continuation fails there and loses a started step |
| `Examples.LostCompletion` | internal/engine/pipeline.go:162-226 | a registered pipeline of two independent steps, any agents that answer, any decoder: either completion ends the run and the other, started, step is reported SKIPPED |
| `Examples.KnotRegistered` | internal/registry/registry.go:230-339 | the stalling pipeline passes the registry checks and this is its plan |
| `Examples.StallReached` | internal/engine/pipeline.go:165-202 | for every decoder and text it reads as null: the plan of that registered pipeline, and its run returns the stall error with exactly these outcomes |
| `Examples.KnotIsLate` | internal/engine/pipeline.go:165-202 | that pipeline meets the condition of Stalls.StallsIf |
| `Examples.OneSinkLosesBehindRouter` | internal/engine/pipeline.go:162-226 | a registered pipeline with a router and a single last step, whatever the agents answer: two of its steps are a lossy pair, so some run leaves with work in flight |
| `EndToEnd.RunExplained` | internal/engine/pipeline.go:46-275 | every run of a valid plan returns exactly the reference result, or a genuine step failure, or a stall with its cause, or has left lost live sinks behind; in all four it lists the declared steps in order, each COMPLETED agent step with the output and tokens its agent gave for its input and each FAILED one with its own error; the tokens are those of the COMPLETED ones, or zero on a stall; without a failure the output is the filled template or that of the last agent step listed as COMPLETED |
| `EndToEnd.RunRegistered` | internal/engine/pipeline.go:46-275 | RunPipeline on a pipeline the registry accepted: no graph problem; a missing input exactly when one is missing; otherwise one of those four endings, for the plan of that pipeline with the caller's agents and decoder |
| `WorkerPool.TicketsMove` | internal/engine/worker.go:83-185 | every ticket after a step was somewhere before it |
| `WorkerPool.WritesOwn` | internal/engine/worker.go:83-185 | a step changes the status of no session but the one its actor holds |
| `WorkerPool.StepKeeps` | internal/engine/worker.go:83-185 | every step, failing store calls and restarts included, keeps: one ticket per session, the status each holder relies on, one execution per session |
| `WorkerLaws.AtMostOnce` | internal/engine/worker.go:83-185 | from any store, in every interleaving no session is twice queued or held and none is executed twice by one process |
| `WorkerLaws.FinalForever` | internal/engine/worker.go:152-185 | COMPLETED and FAILED are never overwritten, not even after restarts |
| `WorkerLaws.Conservation` | internal/engine/worker.go:83-185 | submitted + requeued = completed + failed + queued + in hand + being sent + rejected + dropped in every state |
| `WorkerLaws.StrandedForever` | internal/engine/worker.go:80-131 | a PENDING job without a ticket stays so for ever, whatever is submitted and however often the process restarts |
| `WorkerLaws.RejectedIsStranded` | internal/engine/worker.go:91-96 | a full queue strands the job at once, at Submit and at requeue |
| `WorkerLaws.RestartTicketsIff` | internal/engine/worker.go:113-131 | a new process holds a ticket for a session if and only if it was RUNNING |
| `WorkerLaws.RestartStrandsPending` | internal/engine/worker.go:113-131 | every job PENDING when the process dies is never executed |
| `WorkerLaws.WorkDecreases` | internal/engine/worker.go:83-185 | every step on existing tickets strictly reduces the remaining work |
| `WorkerLaws.RunIsBounded` | internal/engine/worker.go:83-185 | left alone, the pool rests within that many steps |
| `WorkerLaws.NeverStuck` | internal/engine/worker.go:139-150 | with a worker and work left, some step can be taken |
| `WorkerLaws.QueuedJobsFinish` | internal/engine/worker.go:139-185 | without store errors or a crash a queued PENDING job is COMPLETED or FAILED when the pool rests, whatever is submitted meanwhile |
| `WorkerCalls.JobPool.Submit` | internal/engine/worker.go:83-97 | takes exactly the protocol steps Create, or Create and Send; which error when; no other job changes; queue full leaves the job stored and unqueued |
| `WorkerCalls.JobPool.Enqueue` | internal/engine/worker.go:100-109 | sends exactly when there is room |
| `WorkerCalls.JobPool.RequeueOrphans` | internal/engine/worker.go:113-131 | takes exactly a reset and a send per job up to the first store error; the jobs before it are PENDING, no job outside the list changes, and the count is what fitted in the queue |
| `WorkerCalls.JobPool.Run` | internal/engine/worker.go:152-185 | takes exactly the steps Load, Mark, Finish, cut where a store call fails or the job is not PENDING; executes exactly a loaded PENDING job; no other job changes |
| `WorkerCalls.ReachedIsRun` | internal/engine/worker.go:83-185 | such a call is a run the theorems quantify over |
| `RedisModel.KeysDistinct` | internal/store/redis/redis.go:271-273 | keys of different kinds, sessions or statuses never collide, whatever the session id |
| `RedisStore.CommitCreateKeeps` | internal/store/redis/redis.go:155-172 | the create transaction of a claimed session with a fresh number keeps index agreement |
| `RedisStore.CommitSetKeeps` | internal/store/redis/redis.go:193-218 | a status transaction based on the current hash keeps index agreement |
| `RedisStore.ClaimKeeps` | internal/store/redis/redis.go:146-153 | so does the HSETNX claim |
| `RedisStore.IncrKeeps` | internal/store/redis/redis.go:138-145 | INCR returns a number no session holds |
| `RedisCalls.HashToMap` | internal/store/redis/redis.go:276-288 | the loop rebuilds the hash from an HGETALL reply in any field order |
| `RedisCalls.FlatRoundTrip` | internal/store/redis/redis.go:276-288 | flattening a hash and reading it back is the identity |
| `RedisCalls.Store.CreateJob` | internal/store/redis/redis.go:128-173 | which error when; on success the job is readable with its fields, PENDING unless it says otherwise, with both times set, is the newest, and no other session changed; a refused create changes no session |
| `RedisCalls.Store.GetJob` | internal/store/redis/redis.go:176-189 | the stored job, or not found exactly when there is none |
| `RedisCalls.Store.SetJobStatus` | internal/store/redis/redis.go:193-218 | not found exactly when absent; otherwise status, result, error and update time of that session change and nothing else, its age included |
| `RedisCalls.Store.ListJobsByStatus` | internal/store/redis/redis.go:221-239 | exactly the jobs in that status, each once, oldest first |
| `RedisCalls.ListLaw` | internal/store/redis/redis.go:221-239 | the same for any ZRANGE reply sorted by score |
| `RedisCalls.SetLaw` | internal/store/redis/redis.go:193-218 | a status write changes three fields of one job and keeps agreement |
| `RedisRuns.StepKeeps` | internal/store/redis/redis.go:128-218 | every command of every open call keeps agreement and what the other calls rely on, if writes of a session do not overlap |
| `RedisRuns.IndexAgreement` | internal/store/redis/redis.go:128-239 | over every interleaving without overlapping writes a session is in the index of a status if and only if its hash holds it, scored by its own creation number, unique among sessions |
| `RedisRuns.OverlapAgreesIff` | internal/store/redis/redis.go:193-218 | two overlapping writes leave agreement if and only if the first keeps the status or both write the same one |
| `RedisRuns.HalfMadeWriteBreaks` | internal/store/redis/redis.go:193-218 | a write to a half-created session always breaks agreement |
| `PoolOverRedis.OpenNoOverlap` | internal/engine/worker.go:83-185 | a ticket holder who opens a status write finds no other write open on the session and the session complete |
| `PoolOverRedis.ClaimNoOverlap` | internal/store/redis/redis.go:136-153 | a claim succeeds only on a session nobody is writing |
| `PoolOverRedis.MoveKeeps` | internal/engine/worker.go:83-185 | every command, error, lost reply and crash of the pool over Redis keeps index agreement, the ticket invariant and the match between hashes and protocol |
| `PoolOverRedis.MoveRefines` | internal/engine/worker.go:83-185 | seen from the pool, each is one step of its protocol or none |
| `PoolOverRedis.RunRefines` | internal/engine/worker.go:83-185 | so every run of the pool over Redis, command by command, is a run of the pool protocol, to which all its theorems apply |
| `PoolOverRedis.SystemAgrees` | internal/store/redis/redis.go:128-239 | from an empty Redis, over every interleaving with errors and crashes: index and hashes agree and hold what the pool says, no session is queued or held twice or executed twice by one process; non-overlap is proved, not assumed |
| `PoolOverRedis.FinalInRedis` | internal/engine/worker.go:152-185 | a final status in Redis is never overwritten |
| `Resp.Conn.WriteCommand` | internal/store/redis/client.go:168-183 | the loop buffers exactly the RESP text of the command |
| `Resp.Conn.ReadLine` | internal/store/redis/client.go:241-249 | the scan fails exactly when there is no line feed; otherwise the line holds none, and line, ending and rest make up what was unread |
| `Resp.Conn.ReadReply` | internal/store/redis/client.go:186-239 | the recursive reader computes ReadOne on the stream and leaves exactly its rest |
| `RespLaws.CommandRoundTrip` | internal/store/redis/client.go:168-249 | reading a written command gives its arguments back, CRLF included, and leaves exactly what follows |
| `RespLaws.ReplyRoundTrip` | internal/store/redis/client.go:186-249 | every nested reply with one-line status texts is read back, leaving exactly what follows |
| `RespLaws.RoundTripIff` | internal/store/redis/client.go:186-249 | and only those |
| `RespLaws.UnsafeReplyLost` | internal/store/redis/client.go:186-249 | any other reply is never read back as itself |
| `ConnPool.ReadOneExtends` | internal/store/redis/client.go:186-249 | a readable reply is read the same whatever follows it |
| `ConnPool.NothingLeft` | internal/store/redis/client.go:91-166 | reading as many replies as commands leaves nothing unread |
| `ConnPool.Do` | internal/store/redis/client.go:91-110 | unless the connection is to be dropped, the caller gets the reply to this very command, as an error if and only if it is one, and the connection is aligned; exactly this command was sent |
| `ConnPool.DoMulti` | internal/store/redis/client.go:115-166 | the same for a transaction: success means that its own EXEC reply is no error, not nil, and holds no error; a Redis error is EXEC's own or the first in its array; a reply that arrived whole gives any other error only if nil |
| `ConnPool.ClassifyExec` | internal/store/redis/client.go:147-166 | a Redis error m if and only if the reply is m or m is the first error in its array; another error if and only if nil; otherwise the array, free of errors |
| `ConnPool.TransactionReads` | internal/store/redis/client.go:115-166 | the reply read last is EXEC's, for any cut of the stream |
| `ConnPool.TransactionReadBack` | internal/store/redis/client.go:115-145 | a server sees MULTI, each command and EXEC: as many requests as replies are read |
| `ConnPool.Pool.Get` | internal/store/redis/client.go:267-277 | hands out the newest aligned connection and forgets it, or dials |
| `ConnPool.Pool.Dial` | internal/store/redis/client.go:291-310 | a dialled connection is aligned, has sent AUTH exactly with a password and SELECT exactly with a database, and neither was refused |
| `ConnPool.Pool.Put` | internal/store/redis/client.go:279-289 | keeps it unless eight are idle |
| `ConnPool.Pool.Cmd` | internal/store/redis/redis.go:85-105 | every pooled connection stays aligned, Redis errors and transport errors included; the result is the reply to this command, an error if and only if that is one, and the connection that sent it is pooled again |
| `ConnPool.Pool.Multi` | internal/store/redis/redis.go:108-125 | the same for transactions, with EXEC's reply read as in DoMulti |
| `Calculator.Parser.Factor` | internal/tools/eval.go:106-134 | parses and computes a factor exactly as the value-free parser finds it, with the position in step |
| `Calculator.Parser.Term` | internal/tools/eval.go:71-104 | the same for a product, division by zero included |
| `Calculator.Parser.Expr` | internal/tools/eval.go:39-69 | the same for a sum |
| `Calculator.Eval` | internal/tools/eval.go:14-25 | parsing while computing equals parsing first and computing after, trailing text refused |
| `CalculatorLaws.DerivedIsParsed` | internal/tools/eval.go:39-149 | every derivation in the grammar is the one the parser finds |
| `CalculatorLaws.ParsedIsDerived` | internal/tools/eval.go:39-149 | every parse is a derivation |
| `CalculatorLaws.EvalExact` | internal/tools/eval.go:14-149 | evaluation gives v if and only if the text derives a tree whose value is v |
| `CalculatorLaws.Unambiguous` | internal/tools/eval.go:39-149 | a text derives at most one tree |
| `CalculatorLaws.EvalAlphabet` | internal/tools/eval.go:14-149 | a text with a character other than digits, the point, the four operators, parentheses and white space is refused |
| `CalculatorPrinter.PrintThenEval` | internal/tools/eval.go:14-149 | the minimally parenthesised text of any expression, with any white space between tokens, evaluates to the expression's value, and fails exactly when it has none |
| `CalculatorPrinter.MinimalValue` | internal/tools/eval.go:39-134 | leaving out redundant parentheses keeps the value |
| `CalculatorPrinter.PrintableHasLayout` | internal/tools/eval.go:136-149 | such a text exists for every expression with writable numbers |
| `CalculatorPrinter.EvalNumber` | internal/tools/eval.go:106-149 | a run of digits and points evaluates to the number it reads as, plain or under a sign |
| `CalculatorPrinter.EvalOperator` | internal/tools/eval.go:39-104 | x+y, x-y, x*y and x/y apply the operator to the value of x and the value of y in that order, and fail only for a zero divisor |
| `CalculatorPrinter.EvalChain` | internal/tools/eval.go:39-69 | x-y-z takes z from the difference of x and y |
| `CalculatorPrinter.EvalPrecedence` | internal/tools/eval.go:39-104 | x-y*z takes the product from x |
| `CalculatorPrinter.EvalGroup` | internal/tools/eval.go:39-134 | parentheses come first, with white space around them |
| `Schema.CheckType` | internal/schema/schema.go:121-132 | fails if and only if types are listed and none matches |
| `Schema.CheckEnum` | internal/schema/schema.go:134-145 | fails if and only if there is an enum and no candidate prints the same |
| `Schema.CheckScalar` | internal/schema/schema.go:99-174 | reports a keyword really broken, or none of type, enum, bounds and lengths is |
| `Schema.CheckRequired` | internal/schema/schema.go:202-212 | reports a required property really missing, or none is |
| `Schema.FirstUnknown` | internal/schema/schema.go:227-238 | the first undefined property in name order, or none |
| `Schema.CheckArray` | internal/schema/schema.go:176-195 | reports a real violation in the array or its items, or there is none |
| `Schema.CheckProperties` | internal/schema/schema.go:213-226 | in any map order: reports a real violation below a property, or there is none |
| `Schema.CheckObject` | internal/schema/schema.go:197-240 | reports a real violation in the object or its properties, or there is none |
| `Schema.Validate` | internal/schema/schema.go:99-240 | accepts if and only if no path through schema and document together ends at a broken keyword; a failure names such a path and keyword |
| `SchemaLaws.CheckNode` | internal/schema/schema.go:54-89 | accepts a schema if and only if no node reachable through properties and items is malformed; a refusal names one |
| `SchemaLaws.KnownTypeIff` | internal/schema/schema.go:91-97 | a type name is known if and only if some document is of that type |
| `SchemaLaws.OwnKeywords` | internal/schema/schema.go:121-240 | the keywords the validator tests on a node are sections 6.1 to 6.5 of draft-07 read directly: types, values, inclusive bounds, required and unlisted properties |
| `SchemaLaws.VerdictIff` | internal/schema/schema.go:54-240 | for every accepted schema the validator's verdict is the recursive draft-07 reading of the supported keywords, with every property subschema applied |
| `Backoff.Normalized` | internal/llm/retry.go:39-50 | positive delays are kept, and the others become 250 ms and 5 s |
| `Backoff.BackoffDelay` | internal/llm/retry.go:93-101 | the doubling loop with its early stop and wrap-around |
| `Backoff.Wait` | internal/llm/retry.go:93-108 | the wait lies between half the delay, rounded down, and the delay, the jitter added to the half; no delay means no wait |
| `Backoff.BackoffExactIff` | internal/llm/retry.go:93-101 | every attempt's delay is min(base * 2^(attempt-1), max) if and only if base is at most max and no doubling below max overflows |
| `Backoff.FirstAttemptUnclamped` | internal/llm/retry.go:39-101 | a base of 10s under the default cap waits twice the cap on the first attempt |
| `Backoff.Complete` | internal/llm/retry.go:54-75 | at most MaxAttempts calls; the answer is the first success, the first failure other than transport, HTTP 429 or HTTP 500 and up, or the last attempt, unless a sleep of positive length is cut; the waits add up to at most the capped delays of MaxAttempts - 1 retries |

## Left out

- Progress.NoStall: one direction only, with a partial converse in Stalls.StallsIf. An unsafe forward dependency stalls a run only if too few completions follow the router's, since each brings one more pass; how many do depends on the branch lengths, the declared order and the order inside dependency lists together. Progress.StallHasCause covers every stall.
- Drains.DrainsIff: that a lossy pair does lose is shown where forward dependencies are safe and the inputs of steps whose dependencies complete resolve. Drains.LossHasPair and Drains.InnerHaltDrains need neither, and SinkLoss.RouterFreeDrainsIff assumes only that there are no routers.
- Backoff.Complete: the bound on the total wait is stated for configurations meeting the exact condition of Backoff.BackoffExactIff.
- WorkerPool.StepKeeps: one process at a time; two processes sharing a store are not modelled.
- RedisRuns.StepKeeps: calls in progress are modelled on values, one atomic step per command, not as threads.
- PoolOverRedis.MoveKeeps: a command of a process that died does not reach Redis after the new process has listed its jobs.
- RedisCalls.Store.SetJobStatus: run on its own on a store without half-created sessions; the interleaved and half-created cases are in RedisRuns.
- Job statuses are the six the code defines; a caller passing other text as a status is not modelled.
- Redis itself: sorted-set scores are exact integers, where Redis rounds beyond 2^53; key expiry and eviction do not happen.
- AppendStepResult and ListStepResults: a list append and a list read.
- internal/store/sqlite.go: SQL over an engine that is not part of this model.
- float64 rounding, strconv and JSON text formats, and regular expressions: abstract number operations and functions passed in; schema numbers are reals, and an integer is a whole number in the int64 range.
- Error message texts: errors are data that say what failed and where.
- Lengths announced by a RESP peer beyond what memory holds, and the panic they would cause.
- Durations, logging, metrics and the per-pipeline semaphore, which delays steps and changes nothing else.
- Cancellation is an interruption that may hit any agent call; context deadlines are not modelled.
- A step goroutine left behind when the loop exits early: it is counted as in flight and not followed further.
- The registry is fixed during a run, although RunAgent reads it again for each step (internal/engine/engine.go:106).
- validatePipeline's checks of the version, the file name, agent blueprints and step output names, which the scheduler does not read.
- HTTP API, LLM transport, rate limiting, registry loading, tools other than the evaluator, and start-up flags.
