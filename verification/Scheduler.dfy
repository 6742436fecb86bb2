/** The DAG scheduler (internal/engine/pipeline.go): the values its owner loop keeps, what one
    admission pass and one received completion do to them, and the loop itself. */
module Scheduler {
  import opened Prelude
  import opened Json
  import opened Model
  import Text
  import Template
  import Routing
  import Graph

  datatype AgentResult = AgentOk(output: string, tokens: int) | AgentErr(error: string)

  datatype StepError =
    | NoError
    | ResolveError(why: Template.Error)
    | RouteError(reason: Routing.RouteError)
    | NotAStep(target: string)
    | AgentError(message: string)
    | Interrupted

  datatype Status = Completed | Skipped | Failed

  datatype Outcome = Outcome(stepId: string, status: Status, output: string, error: StepError, tokens: int)

  /** A pipeline ready to run: its steps by id and in declared order, its dependency map, the
      inputs in scope, and the agents, each a function of agent id and input. */
  datatype Plan = Plan(
    steps: map<string, Step>,
    order: seq<string>,
    deps: Graph.DepMap,
    inputs: map<string, string>,
    output: string,
    agents: (string, string) -> AgentResult,
    codec: Codec)

  /** What the owner loop keeps. inflight holds the started steps whose completion has not been
      received, with their resolved input; launched lists every start, oldest first. */
  datatype Board = Board(
    pending: set<string>,
    state: map<string, Status>,
    results: map<string, Outcome>,
    outputs: map<string, string>,
    inflight: map<string, string>,
    failure: Option<(string, StepError)>,
    tokens: int,
    launched: seq<string>)

  function SkippedOutcome(id: string): Outcome {
    Outcome(id, Skipped, "", NoError, 0)
  }

  function FailedOutcome(id: string, e: StepError): Outcome {
    Outcome(id, Failed, "", e, 0)
  }

  // ------------------------------------------------------------------ one admission

  datatype Readiness = Ready | MustSkip | Wait

  /** depStatus over the remaining dependencies. */
  function DepStatus(state: map<string, Status>, deps: seq<string>): Readiness {
    if deps == [] then Ready
    else if deps[0] !in state then Wait
    else if state[deps[0]] == Completed then DepStatus(state, deps[1..])
    else MustSkip
  }

  function FirstOf(failure: Option<(string, StepError)>, id: string, e: StepError): Option<(string, StepError)> {
    if failure.Some? then failure else Some((id, e))
  }

  /** launch, given the resolved input: start the step or fail it. */
  function Started(b: Board, id: string, resolved: Result<string, Template.Error>): Board {
    match resolved
    case Err(e) =>
      b.(results := b.results[id := FailedOutcome(id, ResolveError(e))],
         state := b.state[id := Failed],
         failure := FirstOf(b.failure, id, ResolveError(e)))
    case Ok(input) =>
      b.(inflight := b.inflight[id := input], launched := b.launched + [id])
  }

  function ResolvedInput(w: Plan, b: Board, id: string): Result<string, Template.Error>
    requires id in w.steps
  {
    Template.Resolved(w.steps[id].input, Template.Scope(w.inputs, b.outputs), w.codec)
  }

  function Launched(w: Plan, b: Board, id: string): Board
    requires id in w.steps
  {
    Started(b, id, ResolvedInput(w, b, id))
  }

  function Dropped(b: Board, id: string): Board {
    b.(pending := b.pending - {id}, state := b.state[id := Skipped], results := b.results[id := SkippedOutcome(id)])
  }

  /** The body of the admission loop for one step. */
  function AdmitOne(w: Plan, b: Board, id: string): Board
    requires id in w.steps && id in w.deps
  {
    if b.failure.Some? || id !in b.pending then b
    else if id in b.state && b.state[id] == Skipped then Dropped(b, id)
    else
      match DepStatus(b.state, w.deps[id])
      case MustSkip => Dropped(b, id)
      case Wait => b
      case Ready => Launched(w, b.(pending := b.pending - {id}), id)
  }

  predicate Known(w: Plan) {
    && w.steps.Keys == w.deps.Keys
    && forall id <- w.order :: id in w.steps
  }

  /** The admission loop from index i on. */
  function AdmitFrom(w: Plan, b: Board, i: nat): Board
    requires Known(w) && i <= |w.order|
    decreases |w.order| - i
  {
    if i == |w.order| then b else AdmitFrom(w, AdmitOne(w, b, w.order[i]), i + 1)
  }

  function Admit(w: Plan, b: Board): Board
    requires Known(w)
  {
    AdmitFrom(w, b, 0)
  }

  // ------------------------------------------------------------------ one completion

  datatype Completion = Completion(out: Outcome, target: string)

  /** What a step's goroutine reports. A canceled context can interrupt an agent call. */
  function Work(w: Plan, id: string, input: string, interrupted: bool): Completion
    requires id in w.steps
  {
    var step := w.steps[id];
    if step.router then
      match Routing.Picked(step.routes, input, w.codec, None)
      case Err(e) => Completion(FailedOutcome(id, RouteError(e)), "")
      case Ok(t) =>
        if t in w.steps then Completion(Outcome(id, Completed, "", NoError, 0), t)
        else Completion(FailedOutcome(id, NotAStep(t)), t)
    else if interrupted then Completion(FailedOutcome(id, Interrupted), "")
    else
      match w.agents(step.agentId, input)
      case AgentErr(m) => Completion(FailedOutcome(id, AgentError(m)), "")
      case AgentOk(out, n) => Completion(Outcome(id, Completed, out, NoError, n), "")
  }

  /** The other branch targets of a router become SKIPPED. */
  function SkipLosers(state: map<string, Status>, routes: seq<Route>, target: string): map<string, Status> {
    if routes == [] then state
    else
      var n := |routes| - 1;
      var rest := SkipLosers(state, routes[..n], target);
      if routes[n].target != target then rest[routes[n].target := Skipped] else rest
  }

  /** The receive half of a loop iteration, given the completion. */
  function Applied(b: Board, id: string, routes: seq<Route>, c: Completion): Board {
    var b1 := b.(inflight := b.inflight - {id},
                 state := b.state[id := c.out.status],
                 results := b.results[id := c.out]);
    if c.out.status == Completed then
      if c.target != "" then
        b1.(outputs := b1.outputs[id := ""], state := SkipLosers(b1.state, routes, c.target))
      else
        b1.(outputs := b1.outputs[id := c.out.output], tokens := b1.tokens + c.out.tokens)
    else b1.(failure := FirstOf(b1.failure, id, c.out.error))
  }

  function Received(w: Plan, b: Board, id: string, interrupted: bool): Board
    requires id in w.steps && id in b.inflight
  {
    Applied(b, id, w.steps[id].routes, Work(w, id, b.inflight[id], interrupted))
  }

  // ------------------------------------------------------------------------- results

  datatype RunError =
    | GraphProblem(graph: Graph.GraphError)
    | MissingInput(name: string)
    | Stall
    | StepFailed(stepId: string, cause: StepError)
    | OutputFailed(template: Template.Error)
    | NoAgentOutput

  datatype RunResult = RunResult(output: string, tokens: int, steps: seq<Outcome>, error: Option<RunError>)

  function Collected(order: seq<string>, results: map<string, Outcome>): seq<Outcome> {
    seq(|order|, i requires 0 <= i < |order| =>
      if order[i] in results then results[order[i]] else SkippedOutcome(order[i]))
  }

  method CollectOutcomes(order: seq<string>, results: map<string, Outcome>) returns (out: seq<Outcome>)
    ensures out == Collected(order, results)
  {
    out := [];
    for i := 0 to |order|
      invariant out == Collected(order, results)[..i]
    {
      if order[i] in results {
        out := out + [results[order[i]]];
      } else {
        out := out + [SkippedOutcome(order[i])];
      }
    }
  }

  predicate IsAnswer(w: Plan, state: map<string, Status>, id: string) {
    id in state && state[id] == Completed && id in w.steps && !w.steps[id].router
  }

  /** The last completed agent step among the first n, in declared order. */
  function LastAnswer(w: Plan, state: map<string, Status>, n: nat): Option<string>
    requires n <= |w.order|
  {
    if n == 0 then None
    else if IsAnswer(w, state, w.order[n-1]) then Some(w.order[n-1])
    else LastAnswer(w, state, n - 1)
  }

  function Lookup(m: map<string, string>, k: string): string {
    if k in m then m[k] else ""
  }

  /** finalOutput */
  function Final(w: Plan, outputs: map<string, string>, state: map<string, Status>): Result<string, RunError> {
    if Text.TrimSpace(w.output) != "" then
      match Template.Resolved(w.output, Template.Scope(w.inputs, outputs), w.codec)
      case Err(e) => Err(OutputFailed(e))
      case Ok(s) => Ok(s)
    else
      match LastAnswer(w, state, |w.order|)
      case None => Err(NoAgentOutput)
      case Some(id) => Ok(Lookup(outputs, id))
  }

  method FinalOutput(w: Plan, outputs: map<string, string>, state: map<string, Status>)
    returns (r: Result<string, RunError>)
    ensures r == Final(w, outputs, state)
  {
    if Text.TrimSpace(w.output) != "" {
      var resolved := Template.Resolve(w.output, Template.Scope(w.inputs, outputs), w.codec);
      if resolved.Err? {
        return Err(OutputFailed(resolved.error));
      }
      return Ok(resolved.value);
    }
    var last, found := "", false;
    for i := 0 to |w.order|
      invariant found == LastAnswer(w, state, i).Some?
      invariant found ==> last == Lookup(outputs, LastAnswer(w, state, i).value)
    {
      var id := w.order[i];
      if !IsAnswer(w, state, id) {
        continue;
      }
      last, found := Lookup(outputs, id), true;
    }
    if !found {
      return Err(NoAgentOutput);
    }
    return Ok(last);
  }

  /** The result of a run that left the loop normally. */
  function Finished(w: Plan, b: Board): RunResult {
    var outcomes := Collected(w.order, b.results);
    if b.failure.Some? then
      RunResult("", b.tokens, outcomes, Some(StepFailed(b.failure.value.0, b.failure.value.1)))
    else
      match Final(w, b.outputs, b.state)
      case Err(e) => RunResult("", b.tokens, outcomes, Some(e))
      case Ok(s) => RunResult(s, b.tokens, outcomes, None)
  }

  /** The result of a run that found every remaining step blocked with nothing in flight. */
  function StalledResult(w: Plan, b: Board): RunResult {
    RunResult("", 0, Collected(w.order, b.results), Some(Stall))
  }

  // ---------------------------------------------------------------------- whole runs

  datatype Event = Event(id: string, interrupted: bool)

  function Start(w: Plan): Board {
    Board(set id <- w.order, map[], map[], map[], map[], None, 0, [])
  }

  /** The loop goes on from a board at its head by receiving the event. */
  ghost predicate CanReceive(w: Plan, b: Board, e: Event)
    requires Known(w)
  {
    b.pending != {} && e.id in Admit(w, b).inflight && e.id in w.steps
  }

  /** The board at the loop head after the events, if the loop gets there. */
  ghost function BoardAfter(w: Plan, trace: seq<Event>): Option<Board>
    requires Known(w)
  {
    if trace == [] then Some(Start(w))
    else
      var e := trace[|trace|-1];
      match BoardAfter(w, trace[..|trace|-1])
      case None => None
      case Some(b) => if CanReceive(w, b, e) then Some(Received(w, Admit(w, b), e.id, e.interrupted)) else None
  }

  datatype Exit = Continue | Stop(board: Board) | Stalled(board: Board)

  /** How the loop leaves from a board at its head. */
  function ExitFrom(w: Plan, b: Board): Exit
    requires Known(w)
  {
    if b.pending == {} then Stop(b)
    else
      var a := Admit(w, b);
      if a.inflight != map[] then Continue
      else if a.pending == {} || a.failure.Some? then Stop(a)
      else Stalled(a)
  }

  ghost function ResultOf(w: Plan, trace: seq<Event>): Option<RunResult>
    requires Known(w)
  {
    match BoardAfter(w, trace)
    case None => None
    case Some(b) =>
      match ExitFrom(w, b)
      case Continue => None
      case Stop(a) => Some(Finished(w, a))
      case Stalled(a) => Some(StalledResult(w, a))
  }

  // ------------------------------------------------------------------ the owner loop

  /** The maps and counters RunPipeline's closures update. */
  class Owner {
    const w: Plan
    var pending: set<string>
    var state: map<string, Status>
    var results: map<string, Outcome>
    var outputs: map<string, string>
    var inflight: map<string, string>
    var failure: Option<(string, StepError)>
    var tokens: int
    ghost var launched: seq<string>

    ghost function Now(): Board
      reads this
    {
      Board(pending, state, results, outputs, inflight, failure, tokens, launched)
    }

    constructor (w: Plan)
      ensures this.w == w && Now() == Start(w)
    {
      this.w := w;
      pending := set id <- w.order;
      state, results, outputs, inflight := map[], map[], map[], map[];
      failure, tokens, launched := None, 0, [];
    }

    method CheckDeps(id: string) returns (ready: bool, skip: bool)
      requires id in w.deps
      ensures DepStatus(state, w.deps[id]) == if skip then MustSkip else if ready then Ready else Wait
      ensures !(ready && skip)
    {
      var deps := w.deps[id];
      for i := 0 to |deps|
        invariant DepStatus(state, deps) == DepStatus(state, deps[i..])
      {
        var dep := deps[i];
        if dep !in state {
          return false, false;
        }
        if state[dep] != Completed {
          return false, true;
        }
      }
      return true, false;
    }

    method Launch(id: string)
      requires id in w.steps
      modifies this
      ensures Now() == Launched(w, old(Now()), id)
    {
      var decoded := Template.Resolve(w.steps[id].input, Template.Scope(w.inputs, outputs), w.codec);
      if decoded.Err? {
        results := results[id := FailedOutcome(id, ResolveError(decoded.error))];
        state := state[id := Failed];
        if failure.None? {
          failure := Some((id, ResolveError(decoded.error)));
        }
        return;
      }
      inflight := inflight[id := decoded.value];
      launched := launched + [id];
    }

    /** Admits every runnable step, in declared order. */
    method AdmitAll()
      requires Known(w)
      modifies this
      ensures Now() == Admit(w, old(Now()))
    {
      ghost var b0 := Now();
      for i := 0 to |w.order|
        invariant AdmitFrom(w, b0, 0) == AdmitFrom(w, Now(), i)
      {
        var id := w.order[i];
        if failure.Some? || id !in pending {
          continue;
        }
        if id in state && state[id] == Skipped {
          pending := pending - {id};
          state := state[id := Skipped];
          results := results[id := SkippedOutcome(id)];
          continue;
        }
        var ready, skip := CheckDeps(id);
        if skip {
          state := state[id := Skipped];
          results := results[id := SkippedOutcome(id)];
          pending := pending - {id};
          continue;
        }
        if !ready {
          continue;
        }
        pending := pending - {id};
        Launch(id);
      }
    }

    /** Marks every branch target but the chosen one. */
    method MarkLosers(routes: seq<Route>, target: string)
      modifies this`state
      ensures state == SkipLosers(old(state), routes, target)
    {
      for i := 0 to |routes|
        invariant state == SkipLosers(old(state), routes[..i], target)
      {
        assert routes[..i+1][..i] == routes[..i];
        if routes[i].target != target {
          state := state[routes[i].target := Skipped];
        }
      }
      assert routes[..|routes|] == routes;
    }

    /** Receives one completion and applies it. */
    method Receive(id: string, interrupted: bool)
      requires id in w.steps && id in inflight
      modifies this
      ensures Now() == Received(w, old(Now()), id, interrupted)
    {
      var c := Work(w, id, inflight[id], interrupted);
      inflight := inflight - {id};
      state := state[id := c.out.status];
      results := results[id := c.out];
      if c.out.status == Completed {
        if c.target != "" {
          outputs := outputs[id := ""];
          MarkLosers(w.steps[id].routes, c.target);
        } else {
          outputs := outputs[id := c.out.output];
          tokens := tokens + c.out.tokens;
        }
      } else if failure.None? {
        failure := Some((id, c.out.error));
      }
    }
  }

  // ------------------------------------------------------------------------ progress

  /** Unreceived work: what is pending plus what is in flight. */
  function Load(b: Board): nat {
    |b.pending| + |b.inflight|
  }

  lemma InsertSize<K, V>(m: map<K, V>, k: K, v: V)
    ensures |m[k := v]| <= |m| + 1
  {
    assert m[k := v].Keys == m.Keys + {k};
  }

  /** Visiting one step adds no work and puts at most that step in flight. */
  ghost predicate Lighter(a: Board, b: Board, id: string) {
    Load(a) <= Load(b) && a.pending <= b.pending && a.inflight.Keys <= b.inflight.Keys + {id}
  }

  lemma StartedLoad(b: Board, id: string, resolved: Result<string, Template.Error>)
    requires id in b.pending
    ensures Lighter(Started(b.(pending := b.pending - {id}), id, resolved), b, id)
  {
    assert |b.pending - {id}| == |b.pending| - 1;
    if resolved.Ok? { InsertSize(b.inflight, id, resolved.value); }
  }

  lemma DroppedLoad(b: Board, id: string)
    requires id in b.pending
    ensures Lighter(Dropped(b, id), b, id)
  {
    assert |b.pending - {id}| == |b.pending| - 1;
  }

  lemma AdmitOneLoad(w: Plan, b: Board, id: string)
    requires id in w.steps && id in w.deps
    ensures Lighter(AdmitOne(w, b, id), b, id)
  {
    if b.failure.None? && id in b.pending {
      DroppedLoad(b, id);
      StartedLoad(b, id, ResolvedInput(w, b.(pending := b.pending - {id}), id));
    }
  }

  lemma {:induction false} AdmitLoad(w: Plan, b: Board, i: nat)
    requires Known(w) && i <= |w.order| && b.inflight.Keys <= w.steps.Keys
    ensures var a := AdmitFrom(w, b, i);
            Load(a) <= Load(b) && a.pending <= b.pending && a.inflight.Keys <= w.steps.Keys
    decreases |w.order| - i
  {
    if i < |w.order| {
      AdmitOneLoad(w, b, w.order[i]);
      AdmitLoad(w, AdmitOne(w, b, w.order[i]), i + 1);
    }
  }

  /** Every iteration of the owner loop leaves strictly less unreceived work. */
  lemma IterationProgress(w: Plan, b: Board, e: Event)
    requires Known(w) && b.inflight.Keys <= w.steps.Keys && CanReceive(w, b, e)
    ensures Load(Received(w, Admit(w, b), e.id, e.interrupted)) < Load(b)
  {
    AdmitLoad(w, b, 0);
    var a := Admit(w, b);
    assert |a.inflight - {e.id}| == |a.inflight| - 1 by {
      assert (a.inflight - {e.id}).Keys == a.inflight.Keys - {e.id};
    }
  }

  // --------------------------------------------------------------------- RunPipeline

  /** The plan RunPipeline builds: steps and order from the pipeline, declared inputs only. */
  ghost predicate IsPlan(w: Plan, p: Pipeline, inputs: map<string, string>) {
    && |w.order| == |p.steps|
    && (forall i :: 0 <= i < |p.steps| ==> w.order[i] == p.steps[i].id)
    && w.steps.Keys == Ids(p.steps)
    && (forall id <- w.steps :: w.steps[id] in p.steps && w.steps[id].id == id)
    && Graph.IsDeps(p.steps, w.deps)
    && w.inputs.Keys == Elements(p.inputs) <= inputs.Keys
    && (forall name <- w.inputs :: w.inputs[name] == inputs[name])
    && w.output == p.output
  }

  method ScopeInputs(names: seq<string>, inputs: map<string, string>) returns (r: Result<map<string, string>, string>)
    ensures r.Ok? <==> Elements(names) <= inputs.Keys
    ensures r.Ok? ==> r.value.Keys == Elements(names) && forall name <- r.value :: r.value[name] == inputs[name]
    ensures r.Err? ==> r.error in names && r.error !in inputs
  {
    var scope: map<string, string> := map[];
    for i := 0 to |names|
      invariant scope.Keys == Elements(names[..i]) <= inputs.Keys
      invariant forall name <- scope :: scope[name] == inputs[name]
    {
      assert names[..i+1] == names[..i] + [names[i]];
      if names[i] !in inputs {
        assert names[i] in Elements(names);
        return Err(names[i]);
      }
      scope := scope[names[i] := inputs[names[i]]];
    }
    assert names[..|names|] == names;
    return Ok(scope);
  }

  method IndexSteps(list: seq<Step>) returns (steps: map<string, Step>, order: seq<string>)
    ensures |order| == |list| && forall i :: 0 <= i < |list| ==> order[i] == list[i].id
    ensures steps.Keys == Ids(list) && forall id <- steps :: steps[id] in list && steps[id].id == id
  {
    steps, order := map[], [];
    for i := 0 to |list|
      invariant |order| == i && forall j :: 0 <= j < i ==> order[j] == list[j].id
      invariant steps.Keys == Ids(list[..i])
      invariant forall id <- steps :: steps[id] in list && steps[id].id == id
    {
      assert list[..i+1] == list[..i] + [list[i]];
      assert Ids(list[..i+1]) == Ids(list[..i]) + {list[i].id};
      steps := steps[list[i].id := list[i]];
      order := order + [list[i].id];
    }
    assert list[..|list|] == list;
  }

  /** Every step passes its checks and the edges form no cycle. */
  ghost predicate GraphFine(p: Pipeline) {
    Graph.AllStepsOk(p.steps) && forall c :: !Graph.EdgeCycle(p.steps, c)
  }

  /** The reported problem is really there: a cycle through the named step, or the named fault. */
  ghost predicate GraphFault(p: Pipeline, e: Graph.GraphError) {
    if e.Cycle? then exists c :: Graph.EdgeCycle(p.steps, c) && c[0] == e.step else Graph.Justified(e, p.steps)
  }

  /** Every run of RunPipeline, whatever completion it happens to receive next, is one of the
      runs described by BoardAfter and ExitFrom, and it ends. */
  method RunPipeline(p: Pipeline, inputs: map<string, string>, agents: (string, string) -> AgentResult, codec: Codec)
    returns (r: RunResult, ghost w: Plan, ghost trace: seq<Event>, ghost rank: Graph.Ranking)
    ensures match r.error
            case Some(GraphProblem(e)) => !GraphFine(p) && GraphFault(p, e)
            case Some(MissingInput(name)) => GraphFine(p) && name in p.inputs && name !in inputs
            case _ => GraphFine(p) && IsPlan(w, p, inputs) && w.agents == agents && w.codec == codec
                      && Graph.Ranks(w.deps, rank) && Known(w) && ResultOf(w, trace) == Some(r)
  {
    trace := [];
    var deps;
    w := Plan(map[], [], map[], map[], "", agents, codec);
    deps, rank := Graph.Deps(p);
    if deps.Err? {
      return RunResult("", 0, [], Some(GraphProblem(deps.error))), w, trace, rank;
    }
    var scope := ScopeInputs(p.inputs, inputs);
    if scope.Err? {
      return RunResult("", 0, [], Some(MissingInput(scope.error))), w, trace, rank;
    }
    var steps, order := IndexSteps(p.steps);
    var plan := Plan(steps, order, deps.value, scope.value, p.output, agents, codec);
    w := plan;
    assert Known(w) by {
      forall id <- order ensures id in steps {
        var i :| 0 <= i < |order| && order[i] == id;
        assert p.steps[i] in p.steps;
      }
    }
    r, trace := OwnerLoop(plan);
  }

  lemma TraceStep(w: Plan, trace: seq<Event>, b: Board, e: Event)
    requires Known(w) && BoardAfter(w, trace) == Some(b) && CanReceive(w, b, e)
    ensures BoardAfter(w, trace + [e]) == Some(Received(w, Admit(w, b), e.id, e.interrupted))
  {
    assert (trace + [e])[..|trace|] == trace;
  }

  /** One turn of the loop: admit, then leave or receive some completion. */
  method Turn(owner: Owner) returns (exit: bool, stalled: bool, ghost e: Event)
    requires Known(owner.w) && owner.pending != {} && owner.inflight.Keys <= owner.w.steps.Keys
    modifies owner
    ensures exit ==> ExitFrom(owner.w, old(owner.Now())) == if stalled then Stalled(owner.Now()) else Stop(owner.Now())
    ensures !exit ==> CanReceive(owner.w, old(owner.Now()), e)
    ensures !exit ==> owner.Now() == Received(owner.w, Admit(owner.w, old(owner.Now())), e.id, e.interrupted)
    ensures owner.inflight.Keys <= owner.w.steps.Keys
  {
    e := Event("", false);
    AdmitLoad(owner.w, owner.Now(), 0);
    owner.AdmitAll();
    if owner.pending == {} && owner.inflight == map[] {
      return true, false, e;
    }
    if owner.failure.Some? && owner.inflight == map[] {
      return true, false, e;
    }
    if owner.inflight == map[] {
      return true, true, e;
    }
    var id :| id in owner.inflight;
    var interrupted: bool := *;
    e := Event(id, interrupted);
    owner.Receive(id, interrupted);
    return false, false, e;
  }

  method OwnerLoop(w: Plan) returns (r: RunResult, ghost trace: seq<Event>)
    requires Known(w)
    ensures ResultOf(w, trace) == Some(r)
    ensures r.error.Some? ==> !r.error.value.GraphProblem? && !r.error.value.MissingInput?
  {
    var owner := new Owner(w);
    trace := [];
    while owner.pending != {}
      invariant fresh(owner) && owner.w == w
      invariant BoardAfter(w, trace) == Some(owner.Now()) && owner.inflight.Keys <= w.steps.Keys
      decreases Load(owner.Now())
    {
      ghost var b := owner.Now();
      var exit, stalled;
      ghost var e;
      exit, stalled, e := Turn(owner);
      if exit {
        if stalled {
          var outcomes := CollectOutcomes(w.order, owner.results);
          return RunResult("", 0, outcomes, Some(Stall)), trace;
        }
        r := Report(owner);
        return;
      }
      IterationProgress(w, b, e);
      TraceStep(w, trace, b, e);
      trace := trace + [e];
    }
    r := Report(owner);
  }

  /** What follows the loop. */
  method Report(owner: Owner) returns (r: RunResult)
    ensures r == Finished(owner.w, owner.Now())
  {
    var w := owner.w;
    var outcomes := CollectOutcomes(w.order, owner.results);
    if owner.failure.Some? {
      return RunResult("", owner.tokens, outcomes, Some(StepFailed(owner.failure.value.0, owner.failure.value.1)));
    }
    var output := FinalOutput(w, owner.outputs, owner.state);
    if output.Err? {
      return RunResult("", owner.tokens, outcomes, Some(output.error));
    }
    return RunResult(output.value, owner.tokens, outcomes, None);
  }
}
