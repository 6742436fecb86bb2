/** What each reported outcome comes from: the agent's own answer, the chosen route, or the step's own
    error. */
module Causes {
  import opened Prelude
  import opened Scheduler
  import opened Reference
  import opened Runs
  import Routing
  import RunTheorems

  /** The step is started on this input in the reference. */
  ghost predicate StartedOn(w: Plan, table: Table, id: string, input: string) {
    id in w.steps && id in w.deps && AllDone(w, table, id) && InputOf(w, table, id) == Ok(input)
  }

  /** A completed outcome carries what the agent answered to the step's input; a router's carries
      nothing, and its chosen route leads to a step. */
  ghost predicate CompletionGenuine(w: Plan, table: Table, id: string, out: Outcome) {
    exists input :: StartedOn(w, table, id, input) && CompletesWith(w, id, input, out)
  }

  ghost predicate CompletesWith(w: Plan, id: string, input: string, out: Outcome)
    requires id in w.steps
  {
    if w.steps[id].router then
      out == Outcome(id, Completed, "", NoError, 0) && exists t :: t in w.steps && RoutedTo(w, id, input, t)
    else
      w.agents(w.steps[id].agentId, input) == AgentOk(out.output, out.tokens)
      && out == Outcome(id, Completed, out.output, NoError, out.tokens)
  }

  /** A failed step got as far as being started, and the error is its own: of its template, of its
      routes, of its agent, or the interruption of its agent. */
  ghost predicate FailureGenuine(w: Plan, table: Table, id: string, cause: StepError) {
    if cause.ResolveError? then
      id in w.steps && id in w.deps && AllDone(w, table, id) && InputOf(w, table, id) == Err(cause.why) && cause.why.PathFailed?
    else
      exists input :: StartedOn(w, table, id, input) && FailsWith(w, id, input, cause)
  }

  ghost predicate FailsWith(w: Plan, id: string, input: string, cause: StepError)
    requires id in w.steps
  {
    match cause
    case NoError => false
    case ResolveError(_) => false
    case RouteError(reason) => w.steps[id].router && Routing.Refuses(w.steps[id].routes, input, w.codec, reason)
    case NotAStep(t) => w.steps[id].router && t !in w.steps && RoutedTo(w, id, input, t)
    case AgentError(m) => !w.steps[id].router && w.agents(w.steps[id].agentId, input) == AgentErr(m)
    case Interrupted => !w.steps[id].router
  }

  // ----------------------------------------------------------------- one goroutine

  lemma WorkFails(w: Plan, id: string, input: string, interrupted: bool)
    requires id in w.steps && Work(w, id, input, interrupted).out.status == Failed
    ensures var out := Work(w, id, input, interrupted).out;
            out == Outcome(id, Failed, "", out.error, 0) && FailsWith(w, id, input, out.error) && !out.error.ResolveError?
  {
    if w.steps[id].router { Routing.PickedMeans(w.steps[id].routes, input, w.codec); }
  }

  lemma StartedInput(w: Plan, table: Table, id: string, input: string)
    requires IsReference(w, table) && id in w.deps && table[id].input == Some(input)
    ensures StartedOn(w, table, id, input)
  {
    assert table[id] == EntryOf(w, table, id);
  }

  lemma DoneIsGenuine(w: Plan, table: Table, id: string)
    requires IsReference(w, table) && IsDone(table, id)
    ensures CompletionGenuine(w, table, id, DoneOutcome(id, table[id].verdict))
  {
    assert table[id] == EntryOf(w, table, id);
    var input := InputOf(w, table, id).value;
    assert StartedOn(w, table, id, input);
  }

  // --------------------------------------------------------------------- every run

  ghost predicate CauseTrue(w: Plan, table: Table, b: Board, id: string) {
    id in b.results && b.results[id].status == Failed ==>
      b.results[id] == Outcome(id, Failed, "", b.results[id].error, 0) && FailureGenuine(w, table, id, b.results[id].error)
  }

  ghost predicate CausesTrue(w: Plan, table: Table, b: Board) {
    forall id :: CauseTrue(w, table, b, id)
  }

  lemma LaunchCause(w: Plan, table: Table, b: Board, id: string)
    requires Valid(w) && Inv(w, table, b) && id in w.deps && DepsCompleted(w, b, id) && ResolvedInput(w, b, id).Err?
    ensures FailureGenuine(w, table, id, ResolveError(ResolvedInput(w, b, id).error))
  {
    LaunchInput(w, table, b, id);
    LaunchFailsOnPath(w, table, b, id);
    forall d | d in w.deps[id] ensures IsDone(table, d) {
      assert Is(b, d, Completed) && Good(w, table, b, d);
    }
  }

  /** What a visit records as failed. */
  lemma AdmitOneFails(w: Plan, b: Board, id: string, x: string)
    requires id in w.steps && id in w.deps && x in AdmitOne(w, b, id).results && AdmitOne(w, b, id).results[x].status == Failed
    ensures || (x in b.results && b.results[x] == AdmitOne(w, b, id).results[x])
            || (x == id && DepStatus(b.state, w.deps[id]) == Ready && ResolvedInput(w, b, id).Err?
                && AdmitOne(w, b, id).results[x] == Outcome(id, Failed, "", ResolveError(ResolvedInput(w, b, id).error), 0))
  {
  }

  lemma AdmitOneCauses(w: Plan, table: Table, b: Board, id: string)
    requires Valid(w) && Inv(w, table, b) && CausesTrue(w, table, b) && id in w.deps
    ensures CausesTrue(w, table, AdmitOne(w, b, id))
  {
    var b' := AdmitOne(w, b, id);
    forall x | x in b'.results && b'.results[x].status == Failed ensures CauseTrue(w, table, b', x) {
      AdmitOneFails(w, b, id, x);
      assert CauseTrue(w, table, b, x);
      if !(x in b.results && b.results[x] == b'.results[x]) {
        ReadyMeansCompleted(b.state, w.deps[id]);
        LaunchCause(w, table, b, id);
      }
    }
  }

  lemma {:induction false} AdmitCauses(w: Plan, table: Table, b: Board, i: nat)
    requires Valid(w) && Inv(w, table, b) && CausesTrue(w, table, b) && i <= |w.order|
    ensures CausesTrue(w, table, AdmitFrom(w, b, i))
    decreases |w.order| - i
  {
    if i < |w.order| {
      var id := w.order[i];
      assert id in w.order;
      AdmitOneKeeps(w, table, b, id);
      AdmitOneCauses(w, table, b, id);
      AdmitCauses(w, table, AdmitOne(w, b, id), i + 1);
    }
  }

  lemma ReceivedResult(w: Plan, a: Board, id: string, interrupted: bool)
    requires id in w.steps && id in a.inflight
    ensures Received(w, a, id, interrupted).results == a.results[id := Work(w, id, a.inflight[id], interrupted).out]
  {
  }

  lemma ReceivedCauses(w: Plan, table: Table, a: Board, id: string, interrupted: bool)
    requires Valid(w) && Inv(w, table, a) && CausesTrue(w, table, a) && id in a.inflight && id in w.steps
    ensures CausesTrue(w, table, Received(w, a, id, interrupted))
  {
    var out := Work(w, id, a.inflight[id], interrupted).out;
    ReceivedResult(w, a, id, interrupted);
    assert Good(w, table, a, id);
    StartedInput(w, table, id, a.inflight[id]);
    if out.status == Failed { WorkFails(w, id, a.inflight[id], interrupted); }
    forall x ensures CauseTrue(w, table, Received(w, a, id, interrupted), x) { assert CauseTrue(w, table, a, x); }
  }

  /** In every run, every step reported as FAILED carries its own error. */
  lemma {:induction false} RunCauses(w: Plan, table: Table, trace: seq<Event>)
    requires Valid(w) && IsReference(w, table) && BoardAfter(w, trace).Some?
    ensures CausesTrue(w, table, BoardAfter(w, trace).value) && CausesTrue(w, table, Admit(w, BoardAfter(w, trace).value))
  {
    if trace != [] {
      var n := |trace| - 1;
      RunTheorems.LastEvent(w, trace);
      RunCauses(w, table, trace[..n]);
      RunKeeps(w, table, trace[..n]);
      ReceivedCauses(w, table, Admit(w, BoardAfter(w, trace[..n]).value), trace[n].id, trace[n].interrupted);
    }
    RunKeeps(w, table, trace);
    AdmitCauses(w, table, BoardAfter(w, trace).value, 0);
  }
}
