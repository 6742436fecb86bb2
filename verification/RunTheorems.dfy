/** The promises of the scheduler over whole runs. */
module RunTheorems {
  import opened Prelude
  import opened Model
  import opened Scheduler
  import opened Reference
  import opened Runs
  import Template
  import Text
  import Graph
  import Routing

  /** A board the owner loop reaches, at its head or after an admission pass. */
  ghost predicate Reached(w: Plan, b: Board)
    requires Known(w)
  {
    exists trace :: BoardAfter(w, trace).Some? && (b == BoardAfter(w, trace).value || b == Admit(w, BoardAfter(w, trace).value))
  }

  lemma ReachedInv(w: Plan, table: Table, b: Board)
    requires Valid(w) && IsReference(w, table) && Reached(w, b)
    ensures Inv(w, table, b)
  {
    var trace :| BoardAfter(w, trace).Some? && (b == BoardAfter(w, trace).value || b == Admit(w, BoardAfter(w, trace).value));
    RunKeeps(w, table, trace);
  }

  // --------------------------------------------------------------- registered plans

  /** What validatePipeline checks beyond Deps, as far as the scheduler relies on it. */
  ghost predicate Registered(p: Pipeline) {
    && (forall i :: 0 <= i < |p.steps| ==> Template.IsId(p.steps[i].id))
    && (forall i, j :: 0 <= i < j < |p.steps| ==> p.steps[i].id != p.steps[j].id)
    && (forall s {:trigger InputsKnown(s, p.inputs)} :: s in p.steps ==> InputsKnown(s, p.inputs))
  }

  ghost predicate InputsKnown(s: Step, inputs: seq<string>) {
    Template.Parsed(s.input).Ok? ==>
      forall ref <- Template.Parsed(s.input).value :: ref.InputRef? ==> ref.name in inputs
  }

  /** The references of a text name declared inputs and steps (checkRef). */
  ghost predicate RefsKnown(s: string, p: Pipeline) {
    && Template.Parsed(s).Ok?
    && forall ref <- Template.Parsed(s).value ::
         if ref.InputRef? then ref.name in p.inputs else ref.stepId in Ids(p.steps)
  }

  /** The check of one step: a router has routes, at most one of them a default, and every other
      with exactly one operator; any other step has an agent. */
  ghost predicate StepChecked(s: Step) {
    if s.router then
      && s.routes != []
      && (forall i, j :: 0 <= i < j < |s.routes| ==> !(s.routes[i].isDefault && s.routes[j].isDefault))
      && (forall rt <- s.routes :: !rt.isDefault ==> rt.when.Some? && Routing.OperatorOf(rt.when.value).Some?)
    else s.agentId != ""
  }

  /** validatePipeline, on the fields modelled here. */
  ghost predicate Validated(p: Pipeline) {
    && Template.IsId(p.id) && p.steps != []
    && (forall name <- p.inputs :: Template.IsId(name))
    && Registered(p)
    && (forall s <- p.steps :: RefsKnown(s.input, p) && StepChecked(s))
    && GraphFine(p)
    && (p.output != "" ==> RefsKnown(p.output, p))
  }

  /** The part of a plan that mirrors the list of steps. */
  ghost predicate Mirrors(order: seq<string>, steps: map<string, Step>, list: seq<Step>) {
    && |order| == |list| && (forall i :: 0 <= i < |list| ==> order[i] == list[i].id)
    && steps.Keys == Ids(list) && (forall id <- steps :: steps[id] in list && steps[id].id == id)
  }

  lemma PlanOrder(order: seq<string>, steps: map<string, Step>, list: seq<Step>)
    requires Mirrors(order, steps, list)
    requires forall i :: 0 <= i < |list| ==> Template.IsId(list[i].id)
    ensures Elements(order) == steps.Keys && "" !in steps && forall id <- order :: id in steps
  {
    forall id | id in steps ensures id in order && id != "" {
      var i :| 0 <= i < |list| && list[i] == steps[id];
      assert order[i] == id && Template.IsId(list[i].id);
    }
    forall id | id in order ensures id in steps {
      var i :| 0 <= i < |order| && order[i] == id;
      assert list[i] in list;
    }
  }

  lemma PlanStep(steps: seq<Step>, deps: Graph.DepMap, s: Step)
    requires Graph.StepOk(s, Ids(steps)) && s in steps && Graph.IsDeps(steps, deps)
    ensures s.id in deps && forall m :: m in Graph.Mentions(s) ==> m in deps[s.id]
    ensures s.router ==> forall t :: t in Targets(s.routes) ==> t in deps && s.id in deps[t]
  {
    forall m | m in Graph.Mentions(s) ensures m in deps[s.id] {
      assert Graph.StepEdge(s, m, s.id) && Graph.IsEdge(steps, m, s.id);
    }
    forall t | s.router && t in Targets(s.routes) ensures t in deps && s.id in deps[t] {
      assert Graph.StepEdge(s, s.id, t) && Graph.IsEdge(steps, s.id, t);
    }
  }

  lemma PlanStepFine(p: Pipeline, w: Plan, id: string)
    requires Registered(p) && Graph.AllStepsOk(p.steps) && Graph.IsDeps(p.steps, w.deps)
    requires id in w.steps && w.steps[id] in p.steps && w.steps[id].id == id && w.inputs.Keys == Elements(p.inputs)
    ensures StepFine(w, id) && forall t :: RoutesTo(w, id, t) ==> t in w.deps && id in w.deps[t]
  {
    assert Graph.StepOk(w.steps[id], Ids(p.steps)) && InputsKnown(w.steps[id], p.inputs);
    PlanStep(p.steps, w.deps, w.steps[id]);
  }

  lemma PlanClosed(steps: seq<Step>, deps: Graph.DepMap)
    requires Graph.AllStepsOk(steps) && Graph.IsDeps(steps, deps)
    ensures Graph.Closed(deps)
  {
    Graph.EdgesClosed(steps, deps);
  }

  lemma PlanStepsFine(p: Pipeline, inputs: map<string, string>, w: Plan)
    requires Registered(p) && IsPlan(w, p, inputs) && Graph.AllStepsOk(p.steps)
    ensures forall id {:trigger StepFine(w, id)} :: id in w.steps ==> StepFine(w, id)
    ensures forall r, t :: RoutesTo(w, r, t) ==> t in w.deps && r in w.deps[t]
  {
    forall id | id in w.steps
      ensures StepFine(w, id) && forall t :: RoutesTo(w, id, t) ==> t in w.deps && id in w.deps[t]
    {
      PlanStepFine(p, w, id);
    }
  }

  /** The plan RunPipeline builds for a registered pipeline is valid. */
  lemma PlanIsValid(p: Pipeline, inputs: map<string, string>, w: Plan)
    requires Registered(p) && IsPlan(w, p, inputs) && Graph.AllStepsOk(p.steps)
    ensures Valid(w)
  {
    PlanOrder(w.order, w.steps, p.steps);
    PlanStepsFine(p, inputs, w);
    PlanClosed(p.steps, w.deps);
  }

  // --------------------------------------------------------------------- refinement

  /** In every reached board, under every completion order, a completed step has its reference
      output, a skipped step is one the reference skips, and a step in flight runs on its
      reference input. */
  lemma RefinesReference(w: Plan, table: Table, b: Board, id: string)
    requires Valid(w) && IsReference(w, table) && Reached(w, b) && id in w.deps
    ensures Is(b, id, Completed) ==>
      IsDone(table, id) && id in b.results && b.results[id] == DoneOutcome(id, table[id].verdict)
      && id in b.outputs && b.outputs[id] == table[id].verdict.output
    ensures Is(b, id, Skipped) ==> IsSkip(table, id)
    ensures Is(b, id, Failed) ==> id in b.results && (table[id].verdict.Halted? || b.results[id].error.Interrupted?)
    ensures id in b.inflight ==> table[id].input == Some(b.inflight[id])
    ensures id in b.outputs ==> Is(b, id, Completed)
  {
    ReachedInv(w, table, b);
    assert Good(w, table, b, id);
  }

  /** Starts are safe: no step starts twice; a started step has its dependencies completed with
      their outputs in scope; the reference does not skip it; and an input that does not resolve
      failed on a JSON path. */
  lemma LaunchSafety(w: Plan, table: Table, b: Board)
    requires Valid(w) && IsReference(w, table) && Reached(w, b)
    ensures NoDup(b.launched)
    ensures forall id <- b.launched :: id in w.deps ==>
      !IsSkip(table, id) && forall d <- w.deps[id] :: Is(b, d, Completed) && d in b.outputs
    ensures forall id <- b.results :: id in w.deps && Is(b, id, Failed) && b.results[id].error.ResolveError? ==>
      b.results[id].error.why.PathFailed?
  {
    ReachedInv(w, table, b);
    forall id <- b.launched | id in w.deps
      ensures !IsSkip(table, id) && forall d <- w.deps[id] :: Is(b, d, Completed) && d in b.outputs
    {
      assert Good(w, table, b, id);
      forall d <- w.deps[id] ensures Is(b, d, Completed) && d in b.outputs {
        assert d in w.deps && Good(w, table, b, d);
      }
    }
    forall id <- b.results | id in w.deps && Is(b, id, Failed) && b.results[id].error.ResolveError?
      ensures b.results[id].error.why.PathFailed?
    {
      assert Good(w, table, b, id);
    }
  }

  /** A dependency chain: each step needs the one before it. */
  ghost predicate Chain(w: Plan, c: seq<string>) {
    && c != [] && (forall i :: 0 <= i < |c| ==> c[i] in w.deps)
    && forall i :: 0 <= i < |c| - 1 ==> c[i] in w.deps[c[i+1]]
  }

  /** Everything downstream of a skipped step is skipped by the reference, so never started. */
  lemma {:induction false} SkipSpreads(w: Plan, table: Table, c: seq<string>)
    requires IsReference(w, table) && Chain(w, c) && IsSkip(table, c[0])
    ensures IsSkip(table, c[|c|-1])
  {
    if |c| > 1 {
      var n := |c| - 1;
      SkipSpreads(w, table, c[..n]);
      assert c[n-1] in w.deps[c[n-1+1]];
      assert table[c[n]] == EntryOf(w, table, c[n]);
    }
  }

  /** A losing branch target is skipped by the reference. */
  lemma LoserIsSkipped(w: Plan, table: Table, r: string, t: string)
    requires Valid(w) && IsReference(w, table) && Loses(w, table, r, t)
    ensures IsSkip(table, t)
  {
    assert table[t] == EntryOf(w, table, t);
  }

  // ----------------------------------------------------------------- after a failure

  lemma {:induction false} AdmitStopsOnFailure(w: Plan, b: Board, i: nat)
    requires Known(w) && i <= |w.order| && b.failure.Some?
    ensures AdmitFrom(w, b, i) == b
    decreases |w.order| - i
  {
    if i < |w.order| {
      assert AdmitOne(w, b, w.order[i]) == b;
      AdmitStopsOnFailure(w, b, i + 1);
    }
  }

  lemma ReceivedStopsOnFailure(w: Plan, b: Board, e: Event)
    requires Known(w) && b.failure.Some? && CanReceive(w, b, e)
    ensures var a := Received(w, Admit(w, b), e.id, e.interrupted);
            a.failure == b.failure && a.launched == b.launched
  {
    AdmitStopsOnFailure(w, b, 0);
  }

  lemma LastEvent(w: Plan, trace: seq<Event>)
    requires Known(w) && trace != [] && BoardAfter(w, trace).Some?
    ensures var before := BoardAfter(w, trace[..|trace|-1]); var e := trace[|trace|-1];
            && before.Some? && CanReceive(w, before.value, e)
            && BoardAfter(w, trace).value == Received(w, Admit(w, before.value), e.id, e.interrupted)
  {
  }

  /** Once a failure is recorded it is never replaced and no further step starts, however long
      the run goes on. */
  lemma {:induction false} FailureStopsStarts(w: Plan, before: seq<Event>, after: seq<Event>)
    requires Known(w) && BoardAfter(w, before).Some? && BoardAfter(w, before).value.failure.Some?
    requires BoardAfter(w, before + after).Some?
    ensures BoardAfter(w, before + after).value.failure == BoardAfter(w, before).value.failure
    ensures BoardAfter(w, before + after).value.launched == BoardAfter(w, before).value.launched
    ensures Admit(w, BoardAfter(w, before + after).value).launched == BoardAfter(w, before).value.launched
  {
    var trace := before + after;
    if after == [] {
      assert trace == before;
    } else {
      var n := |after| - 1;
      assert trace[..|trace|-1] == before + after[..n];
      LastEvent(w, trace);
      FailureStopsStarts(w, before, after[..n]);
      ReceivedStopsOnFailure(w, BoardAfter(w, before + after[..n]).value, trace[|trace|-1]);
    }
    AdmitStopsOnFailure(w, BoardAfter(w, trace).value, 0);
  }

  // -------------------------------------------------------------------- determinism

  ghost function ReferenceState(table: Table): map<string, Status> {
    map id <- table :: if table[id].verdict.Done? then Completed else Skipped
  }

  ghost function ReferenceOutputs(table: Table): map<string, string> {
    map id | id in table && table[id].verdict.Done? :: table[id].verdict.output
  }

  ghost function ReferenceOutcomes(table: Table): map<string, Outcome> {
    map id <- table :: if table[id].verdict.Done? then DoneOutcome(id, table[id].verdict) else SkippedOutcome(id)
  }

  ghost predicate AgentDone(w: Plan, table: Table, id: string) {
    id in w.steps && !w.steps[id].router && IsDone(table, id)
  }

  /** The i-th step is the last declared agent step that completes. */
  ghost predicate LastDone(w: Plan, table: Table, i: nat) {
    i < |w.order| && AgentDone(w, table, w.order[i]) && forall j :: i < j < |w.order| ==> !AgentDone(w, table, w.order[j])
  }

  /** The output template filled in, or without one the output of the last agent step that completes. */
  ghost function ReferenceOutput(w: Plan, table: Table): Result<string, RunError> {
    if !Text.Blank(w.output) then
      match Template.Resolved(w.output, Template.Scope(w.inputs, ReferenceOutputs(table)), w.codec)
      case Err(e) => Err(OutputFailed(e))
      case Ok(s) => Ok(s)
    else if exists i: nat :: LastDone(w, table, i) then
      var i: nat :| LastDone(w, table, i);
      Ok(table[w.order[i]].verdict.output)
    else Err(NoAgentOutput)
  }

  /** The last answer among the first n steps. */
  lemma {:induction false} LastAnswerIs(w: Plan, state: map<string, Status>, n: nat)
    requires n <= |w.order|
    ensures match LastAnswer(w, state, n)
            case None => forall j :: 0 <= j < n ==> !IsAnswer(w, state, w.order[j])
            case Some(id) => exists i :: 0 <= i < n && w.order[i] == id && IsAnswer(w, state, id)
                                         && forall j :: i < j < n ==> !IsAnswer(w, state, w.order[j])
  {
    if n > 0 { LastAnswerIs(w, state, n - 1); }
  }

  lemma FinalIsReference(w: Plan, table: Table)
    ensures Final(w, ReferenceOutputs(table), ReferenceState(table)) == ReferenceOutput(w, table)
  {
    var state := ReferenceState(table);
    Text.TrimSpaceEmpty(w.output);
    LastAnswerIs(w, state, |w.order|);
    forall id ensures IsAnswer(w, state, id) <==> AgentDone(w, table, id) {}
    forall i: nat, k: nat | LastDone(w, table, i) && LastDone(w, table, k) ensures i == k {}
    if LastAnswer(w, state, |w.order|).Some? {
      var i :| 0 <= i < |w.order| && w.order[i] == LastAnswer(w, state, |w.order|).value && IsAnswer(w, state, w.order[i])
               && forall j :: i < j < |w.order| ==> !IsAnswer(w, state, w.order[j]);
      assert LastDone(w, table, i);
    }
  }

  /** The result the reference table prescribes. */
  ghost function ReferenceResult(w: Plan, table: Table): RunResult {
    var state := ReferenceState(table);
    var outcomes := Collected(w.order, ReferenceOutcomes(table));
    var tokens := TokenSum(w.order, table, state, |w.order|);
    match ReferenceOutput(w, table)
    case Err(e) => RunResult("", tokens, outcomes, Some(e))
    case Ok(s) => RunResult(s, tokens, outcomes, None)
  }

  ghost predicate Drained(b: Board) {
    b.pending == {} && b.inflight == map[]
  }

  lemma DrainedBoard(w: Plan, table: Table, b: Board)
    requires Inv(w, table, b) && Drained(b) && b.failure.None?
    ensures b.state == ReferenceState(table) && b.outputs == ReferenceOutputs(table)
    ensures forall id :: id in table ==> id in b.results && b.results[id] == ReferenceOutcomes(table)[id] && !table[id].verdict.Halted?
  {
    forall id | id in table
      ensures id in b.state && b.state[id] == ReferenceState(table)[id] && !table[id].verdict.Halted?
      ensures id in b.outputs <==> table[id].verdict.Done?
      ensures id in b.outputs ==> b.outputs[id] == table[id].verdict.output
      ensures id in b.results && b.results[id] == ReferenceOutcomes(table)[id]
    {
      assert Good(w, table, b, id);
    }
    assert b.state.Keys == table.Keys;
    assert b.outputs.Keys == ReferenceOutputs(table).Keys;
  }

  /** A drained run without failure returns exactly the reference result. */
  lemma DrainedResult(w: Plan, table: Table, b: Board)
    requires Valid(w) && IsReference(w, table) && Reached(w, b) && Drained(b) && b.failure.None?
    ensures Finished(w, b) == ReferenceResult(w, table)
  {
    ReachedInv(w, table, b);
    DrainedBoard(w, table, b);
    FinalIsReference(w, table);
    assert Collected(w.order, b.results) == Collected(w.order, ReferenceOutcomes(table)) by {
      forall i | 0 <= i < |w.order| ensures w.order[i] in table {
        assert w.order[i] in w.order;
      }
    }
  }

  /** Any two drained runs without failure return the same outcomes, tokens and output. */
  lemma Deterministic(w: Plan, rank: Graph.Ranking, b1: Board, b2: Board)
    requires Valid(w) && Graph.Ranks(w.deps, rank)
    requires Reached(w, b1) && Drained(b1) && b1.failure.None?
    requires Reached(w, b2) && Drained(b2) && b2.failure.None?
    ensures Finished(w, b1) == Finished(w, b2)
  {
    var table := ReferenceExists(w, rank);
    DrainedResult(w, table, b1);
    DrainedResult(w, table, b2);
  }

  /** Without interruption, a run that leaves the loop with nothing in flight has failed exactly
      when the reference halts somewhere. */
  lemma FailsIffHalted(w: Plan, table: Table, trace: seq<Event>)
    requires Valid(w) && IsReference(w, table) && BoardAfter(w, trace).Some?
    requires forall e <- trace :: !e.interrupted
    ensures match ExitFrom(w, BoardAfter(w, trace).value)
            case Stop(b) => b.inflight == map[] ==> (b.failure.Some? <==> exists id :: id in table && table[id].verdict.Halted?)
            case _ => true
  {
    var b0 := BoardAfter(w, trace).value;
    RunKeeps(w, table, trace);
    match ExitFrom(w, b0)
    case Stop(b) =>
      if b.inflight == map[] {
        if b.failure.Some? {
          var id := b.failure.value.0;
          assert Good(w, table, b, id);
          NotInterrupted(w, trace);
        } else {
          DrainedBoard(w, table, b);
        }
      }
    case _ =>
  }

  ghost predicate NoInterrupted(b: Board) {
    forall id :: id in b.results ==> !b.results[id].error.Interrupted?
  }

  lemma {:induction false} AdmitNoInterrupted(w: Plan, b: Board, i: nat)
    requires Known(w) && i <= |w.order| && NoInterrupted(b)
    ensures NoInterrupted(AdmitFrom(w, b, i))
    decreases |w.order| - i
  {
    if i < |w.order| {
      var b1 := AdmitOne(w, b, w.order[i]);
      assert NoInterrupted(b1);
      AdmitNoInterrupted(w, b1, i + 1);
    }
  }

  lemma {:induction false} NotInterrupted(w: Plan, trace: seq<Event>)
    requires Known(w) && BoardAfter(w, trace).Some? && forall e <- trace :: !e.interrupted
    ensures NoInterrupted(BoardAfter(w, trace).value) && NoInterrupted(Admit(w, BoardAfter(w, trace).value))
  {
    if trace != [] {
      var n := |trace| - 1;
      var e := trace[n];
      NotInterrupted(w, trace[..n]);
      var a := Admit(w, BoardAfter(w, trace[..n]).value);
      assert e in trace;
      assert Received(w, a, e.id, e.interrupted).results == a.results[e.id := Work(w, e.id, a.inflight[e.id], false).out];
    }
    AdmitNoInterrupted(w, BoardAfter(w, trace).value, 0);
  }
}
