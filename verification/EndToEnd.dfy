/** What RunPipeline returns for a registered pipeline, in terms of the reference. */
module EndToEnd {
  import opened Prelude
  import opened Json
  import opened Model
  import opened Scheduler
  import opened Reference
  import opened Runs
  import opened RunTheorems
  import opened Causes
  import opened Progress
  import opened Drains
  import Template
  import Text
  import Graph

  /** How a run that got past the graph and the inputs ended, and why. */
  datatype Ending =
    | AsReference                                // exactly what the reference prescribes
    | OnFailure(id: string, cause: StepError)    // the first failure
    | OnStall(i: nat, j: nat, e: string)         // behind a dependency skipped too late
    | WithLosses                                 // live sinks left in flight and reported SKIPPED

  /** The outcomes list the declared steps in order: a completed one as the reference has it, with what
      its agent answered; a failed one with its own error; and every other as SKIPPED. */
  ghost predicate Reported(w: Plan, table: Table, steps: seq<Outcome>) {
    |steps| == |w.order| && forall i :: 0 <= i < |steps| ==> OutcomeTrue(w, table, w.order[i], steps[i])
  }

  ghost predicate OutcomeTrue(w: Plan, table: Table, id: string, out: Outcome) {
    match out.status
    case Completed => IsDone(table, id) && out == DoneOutcome(id, table[id].verdict) && CompletionGenuine(w, table, id, out)
    case Failed => out == Outcome(id, Failed, "", out.error, 0) && FailureTrue(w, table, id, out.error)
    case Skipped => out == Outcome(id, Skipped, "", NoError, 0)
  }

  /** The step halts in the reference, or its agent was interrupted; and the error is its own. */
  ghost predicate FailureTrue(w: Plan, table: Table, id: string, cause: StepError) {
    && id in table && !IsSkip(table, id) && (table[id].verdict.Halted? || cause.Interrupted?)
    && FailureGenuine(w, table, id, cause)
  }

  /** The tokens of the completed outcomes. */
  ghost function Spent(steps: seq<Outcome>): int {
    if steps == [] then 0
    else
      var last := steps[|steps| - 1];
      Spent(steps[..|steps| - 1]) + if last.status == Completed then last.tokens else 0
  }

  ghost predicate ListedAnswer(w: Plan, steps: seq<Outcome>, i: nat) {
    && i < |steps| && i < |w.order| && steps[i].status == Completed
    && w.order[i] in w.steps && !w.steps[w.order[i]].router
  }

  /** The i-th outcome is the last of a completed agent step. */
  ghost predicate LastListed(w: Plan, steps: seq<Outcome>, i: nat) {
    ListedAnswer(w, steps, i) && forall j: nat :: i < j ==> !ListedAnswer(w, steps, j)
  }

  /** What the steps listed as completed put out. */
  ghost function ListedOutputs(w: Plan, table: Table, steps: seq<Outcome>): map<string, string> {
    map id | id in table && IsDone(table, id) && Listed(w, steps, id) :: table[id].verdict.output
  }

  ghost predicate Listed(w: Plan, steps: seq<Outcome>, id: string) {
    exists i :: 0 <= i < |steps| && i < |w.order| && w.order[i] == id && steps[i].status == Completed
  }

  /** The result of a run without failure: the output template filled from the steps listed as completed,
      or without one the output of the last agent step among them. */
  ghost predicate Answered(w: Plan, table: Table, r: RunResult) {
    if !Text.Blank(w.output) then
      match Template.Resolved(w.output, Template.Scope(w.inputs, ListedOutputs(w, table, r.steps)), w.codec)
      case Err(e) => r.error == Some(OutputFailed(e)) && r.output == ""
      case Ok(s) => r.error == None && r.output == s
    else if exists i: nat :: LastListed(w, r.steps, i) then
      r.error == None && forall i: nat :: LastListed(w, r.steps, i) ==> r.output == r.steps[i].output
    else r.error == Some(NoAgentOutput) && r.output == ""
  }

  ghost predicate Explains(ending: Ending, w: Plan, table: Table, trace: seq<Event>, r: RunResult)
    requires Known(w)
  {
    BoardAfter(w, trace).Some? && Reported(w, table, r.steps) &&
    var b := BoardAfter(w, trace).value;
    match ending
    case AsReference => r == ReferenceResult(w, table) && r.tokens == Spent(r.steps) && Answered(w, table, r)
    case OnFailure(id, cause) =>
      && r.error == Some(StepFailed(id, cause)) && FailureTrue(w, table, id, cause)
      && r.output == "" && r.tokens == Spent(r.steps)
    case OnStall(i, j, e) =>
      r.error == Some(Stall) && r.output == "" && r.tokens == 0 && StallCause(w, table, Admit(w, b), i, j, e)
    case WithLosses =>
      && b.inflight != map[] && r == Finished(w, b) && r.tokens == Spent(r.steps)
      && (forall x :: x in b.inflight ==> Lost(w, table, b, x))
      && (if b.failure.None? then Answered(w, table, r)
          else r.output == "" && r.error == Some(StepFailed(b.failure.value.0, b.failure.value.1))
               && FailureTrue(w, table, b.failure.value.0, b.failure.value.1))
  }

  /** Every run of a valid plan ends in one of the four ways. */
  lemma RunExplained(w: Plan, rank: Graph.Ranking, table: Table, trace: seq<Event>, r: RunResult) returns (ending: Ending)
    requires Valid(w) && Graph.Ranks(w.deps, rank) && IsReference(w, table) && ResultOf(w, trace) == Some(r)
    ensures Explains(ending, w, table, trace, r)
  {
    match ExitFrom(w, BoardAfter(w, trace).value)
    case Stalled(a) =>
      BoardReported(w, table, trace, a);
      var i, j, e := StallHasCause(w, rank, table, trace);
      ending := OnStall(i, j, e);
    case Stop(a) =>
      ending := StopExplained(w, table, trace, a);
  }

  lemma StopExplained(w: Plan, table: Table, trace: seq<Event>, a: Board) returns (ending: Ending)
    requires Valid(w) && IsReference(w, table) && BoardAfter(w, trace).Some? && ExitFrom(w, BoardAfter(w, trace).value) == Stop(a)
    ensures Explains(ending, w, table, trace, Finished(w, a))
  {
    BoardReported(w, table, trace, a);
    if a.inflight != map[] {
      ending := WithLosses;
      LossesExplained(w, table, trace, a);
    } else if a.failure.Some? {
      ending := OnFailure(a.failure.value.0, a.failure.value.1);
      FailureIsGenuine(w, table, trace, a);
    } else {
      ending := AsReference;
      ReferenceExplained(w, table, trace, a);
    }
  }

  lemma LossesExplained(w: Plan, table: Table, trace: seq<Event>, a: Board)
    requires Valid(w) && IsReference(w, table) && BoardAfter(w, trace).Some? && ExitFrom(w, BoardAfter(w, trace).value) == Stop(a)
    requires a.inflight != map[]
    ensures a == BoardAfter(w, trace).value && forall x :: x in a.inflight ==> Lost(w, table, a, x)
    ensures if a.failure.None? then Answered(w, table, Finished(w, a))
            else FailureTrue(w, table, a.failure.value.0, a.failure.value.1)
  {
    OnlyGuardLosesWork(w, table, trace);
    if a.failure.None? {
      BoardAnswers(w, table, trace, a);
    } else {
      FailureIsGenuine(w, table, trace, a);
    }
  }

  lemma ReferenceExplained(w: Plan, table: Table, trace: seq<Event>, a: Board)
    requires Valid(w) && IsReference(w, table) && BoardAfter(w, trace).Some? && ExitFrom(w, BoardAfter(w, trace).value) == Stop(a)
    requires a.inflight == map[] && a.failure.None?
    ensures Finished(w, a) == ReferenceResult(w, table) && Answered(w, table, Finished(w, a))
  {
    BoardAnswers(w, table, trace, a);
    assert Reached(w, a);
    DrainedResult(w, table, a);
  }

  // ------------------------------------------------------------- what is reported

  /** A recorded result belongs to a step that is not pending and carries that step's status. */
  ghost predicate ResultOk(b: Board, id: string) {
    id in b.results ==> id !in b.pending && b.results[id].stepId == id && Is(b, id, b.results[id].status)
  }

  ghost predicate ResultsMatch(b: Board) {
    forall id :: ResultOk(b, id)
  }

  lemma AdmitOneResultOk(w: Plan, b: Board, id: string, x: string)
    requires id in w.steps && id in w.deps && ResultOk(b, x)
    ensures ResultOk(AdmitOne(w, b, id), x)
  {
  }

  lemma AdmitOneResultsMatch(w: Plan, b: Board, id: string)
    requires id in w.steps && id in w.deps && ResultsMatch(b)
    ensures ResultsMatch(AdmitOne(w, b, id))
  {
    forall x ensures ResultOk(AdmitOne(w, b, id), x) { AdmitOneResultOk(w, b, id, x); }
  }

  lemma {:induction false} AdmitResultsMatch(w: Plan, b: Board, i: nat)
    requires Known(w) && i <= |w.order| && ResultsMatch(b)
    ensures ResultsMatch(AdmitFrom(w, b, i))
    decreases |w.order| - i
  {
    if i < |w.order| {
      AdmitOneResultsMatch(w, b, w.order[i]);
      AdmitResultsMatch(w, AdmitOne(w, b, w.order[i]), i + 1);
    }
  }

  /** A completion the loop applies: of a step that is not pending, and no target of itself; any target
      it skips that has a result is skipped already. */
  lemma AppliedResultOk(b: Board, id: string, routes: seq<Route>, c: Completion, x: string)
    requires ResultOk(b, x) && c.out.stepId == id && id !in b.pending
    requires c.target != "" && x in Targets(routes) && c.out.status == Completed ==> x != id && (x in b.state ==> Is(b, x, Skipped))
    ensures ResultOk(Applied(b, id, routes, c), x)
  {
    SkipLosersAt(b.state[id := c.out.status], routes, c.target, x);
  }

  lemma ReceivedResultOk(w: Plan, table: Table, a: Board, id: string, interrupted: bool, x: string)
    requires Valid(w) && Inv(w, table, a) && ResultOk(a, x) && id in a.inflight && id in w.steps
    ensures ResultOk(Received(w, a, id, interrupted), x)
  {
    var c := Work(w, id, a.inflight[id], interrupted);
    assert Good(w, table, a, id);
    if c.out.status == Completed && c.target != "" && x in Targets(w.steps[id].routes) {
      CompletionMatches(w, table, id, a.inflight[id], interrupted);
      TargetIsWaiting(w, table, a, id, x);
    }
    AppliedResultOk(a, id, w.steps[id].routes, c, x);
  }

  lemma ReceivedResultsMatch(w: Plan, table: Table, a: Board, id: string, interrupted: bool)
    requires Valid(w) && Inv(w, table, a) && ResultsMatch(a) && id in a.inflight && id in w.steps
    ensures ResultsMatch(Received(w, a, id, interrupted))
  {
    forall x ensures ResultOk(Received(w, a, id, interrupted), x) { ReceivedResultOk(w, table, a, id, interrupted, x); }
  }

  lemma {:induction false} RunResultsMatch(w: Plan, table: Table, trace: seq<Event>)
    requires Valid(w) && IsReference(w, table) && BoardAfter(w, trace).Some?
    ensures ResultsMatch(BoardAfter(w, trace).value) && ResultsMatch(Admit(w, BoardAfter(w, trace).value))
  {
    if trace != [] {
      var n := |trace| - 1;
      LastEvent(w, trace);
      RunResultsMatch(w, table, trace[..n]);
      RunKeeps(w, table, trace[..n]);
      ReceivedResultsMatch(w, table, Admit(w, BoardAfter(w, trace[..n]).value), trace[n].id, trace[n].interrupted);
    }
    AdmitResultsMatch(w, BoardAfter(w, trace).value, 0);
  }

  /** The outcome collected for a step is the true one. */
  lemma CollectedTrue(w: Plan, table: Table, b: Board, i: nat)
    requires Valid(w) && Inv(w, table, b) && ResultsMatch(b) && CausesTrue(w, table, b) && i < |w.order|
    ensures OutcomeTrue(w, table, w.order[i], Collected(w.order, b.results)[i])
  {
    var id := w.order[i];
    assert id in w.order && id in w.deps;
    assert Good(w, table, b, id) && ResultOk(b, id) && CauseTrue(w, table, b, id);
    if IsDone(table, id) { DoneIsGenuine(w, table, id); }
  }

  lemma TokensListed(w: Plan, table: Table, b: Board, i: nat)
    requires Valid(w) && Inv(w, table, b) && ResultsMatch(b) && i < |w.order|
    ensures var out := Collected(w.order, b.results)[i];
            (if out.status == Completed then out.tokens else 0) == Earned(table, b.state, w.order[i])
  {
    var id := w.order[i];
    assert id in w.order && id in w.deps;
    assert Good(w, table, b, id) && ResultOk(b, id);
  }

  lemma {:induction false} SpentIsEarned(w: Plan, table: Table, b: Board, n: nat)
    requires Valid(w) && Inv(w, table, b) && ResultsMatch(b) && n <= |w.order|
    ensures Spent(Collected(w.order, b.results)[..n]) == TokenSum(w.order, table, b.state, n)
  {
    if n > 0 {
      SpentIsEarned(w, table, b, n - 1);
      TokensListed(w, table, b, n - 1);
      SpentStep(Collected(w.order, b.results), n);
    }
  }

  lemma SpentStep(steps: seq<Outcome>, n: nat)
    requires 0 < n <= |steps|
    ensures Spent(steps[..n]) == Spent(steps[..n - 1]) + if steps[n - 1].status == Completed then steps[n - 1].tokens else 0
  {
    assert steps[..n][..n - 1] == steps[..n - 1];
  }

  lemma BoardReported(w: Plan, table: Table, trace: seq<Event>, a: Board)
    requires Valid(w) && IsReference(w, table) && BoardAfter(w, trace).Some?
    requires a == BoardAfter(w, trace).value || a == Admit(w, BoardAfter(w, trace).value)
    ensures Reported(w, table, Collected(w.order, a.results)) && a.tokens == Spent(Collected(w.order, a.results))
  {
    RunKeeps(w, table, trace);
    RunResultsMatch(w, table, trace);
    RunCauses(w, table, trace);
    forall i | 0 <= i < |w.order| ensures OutcomeTrue(w, table, w.order[i], Collected(w.order, a.results)[i]) {
      CollectedTrue(w, table, a, i);
    }
    SpentIsEarned(w, table, a, |w.order|);
    assert Collected(w.order, a.results)[..|w.order|] == Collected(w.order, a.results);
  }

  /** A step is listed as completed exactly when it has completed. */
  lemma ListedIsCompleted(w: Plan, table: Table, b: Board, i: nat)
    requires Valid(w) && Inv(w, table, b) && ResultsMatch(b) && i < |w.order|
    ensures var out := Collected(w.order, b.results)[i];
            && (out.status == Completed <==> Is(b, w.order[i], Completed))
            && (out.status == Completed ==> w.order[i] in b.outputs && out.output == b.outputs[w.order[i]])
  {
    var id := w.order[i];
    assert id in w.order && id in w.deps;
    assert Good(w, table, b, id) && ResultOk(b, id);
  }

  lemma OutputsListed(w: Plan, table: Table, b: Board)
    requires Valid(w) && Inv(w, table, b) && ResultsMatch(b)
    ensures b.outputs == ListedOutputs(w, table, Collected(w.order, b.results))
  {
    var steps := Collected(w.order, b.results);
    forall id ensures id in b.outputs <==> id in ListedOutputs(w, table, steps)
              ensures id in b.outputs ==> b.outputs[id] == ListedOutputs(w, table, steps)[id]
    {
      if id in w.deps {
        var i := IndexOfStep(w, id);
        ListedIsCompleted(w, table, b, i);
        assert Good(w, table, b, id);
      }
    }
  }

  lemma AnswerListed(w: Plan, table: Table, b: Board, i: nat)
    requires Valid(w) && Inv(w, table, b) && ResultsMatch(b) && i < |w.order|
    ensures IsAnswer(w, b.state, w.order[i]) <==> ListedAnswer(w, Collected(w.order, b.results), i)
    ensures IsAnswer(w, b.state, w.order[i]) ==> Lookup(b.outputs, w.order[i]) == Collected(w.order, b.results)[i].output
  {
    ListedIsCompleted(w, table, b, i);
  }

  lemma LastIsListed(w: Plan, state: map<string, Status>, outputs: map<string, string>, steps: seq<Outcome>)
    requires |steps| == |w.order|
    requires forall i: nat :: i < |w.order| ==> (IsAnswer(w, state, w.order[i]) <==> ListedAnswer(w, steps, i))
    requires forall i: nat :: i < |w.order| && ListedAnswer(w, steps, i) ==> Lookup(outputs, w.order[i]) == steps[i].output
    ensures match LastAnswer(w, state, |w.order|)
            case None => forall i: nat :: !LastListed(w, steps, i)
            case Some(id) => exists i: nat :: LastListed(w, steps, i) && steps[i].output == Lookup(outputs, id)
  {
    LastAnswerIs(w, state, |w.order|);
    if LastAnswer(w, state, |w.order|).Some? {
      var i :| 0 <= i < |w.order| && w.order[i] == LastAnswer(w, state, |w.order|).value && IsAnswer(w, state, w.order[i])
               && forall j :: i < j < |w.order| ==> !IsAnswer(w, state, w.order[j]);
      assert LastListed(w, steps, i);
    }
  }

  lemma FinishedAnswers(w: Plan, table: Table, b: Board)
    requires b.failure.None? && b.outputs == ListedOutputs(w, table, Collected(w.order, b.results))
    requires var steps := Collected(w.order, b.results);
             match LastAnswer(w, b.state, |w.order|)
             case None => forall i: nat :: !LastListed(w, steps, i)
             case Some(id) => exists i: nat :: LastListed(w, steps, i) && steps[i].output == Lookup(b.outputs, id)
    ensures Answered(w, table, Finished(w, b))
  {
    Text.TrimSpaceEmpty(w.output);
    var steps := Collected(w.order, b.results);
    forall i: nat, k: nat | LastListed(w, steps, i) && LastListed(w, steps, k) ensures i == k {}
  }

  lemma BoardAnswers(w: Plan, table: Table, trace: seq<Event>, a: Board)
    requires Valid(w) && IsReference(w, table) && BoardAfter(w, trace).Some? && a.failure.None?
    requires a == BoardAfter(w, trace).value || a == Admit(w, BoardAfter(w, trace).value)
    ensures Answered(w, table, Finished(w, a))
  {
    RunKeeps(w, table, trace);
    RunResultsMatch(w, table, trace);
    OutputsListed(w, table, a);
    forall i: nat | i < |w.order|
      ensures IsAnswer(w, a.state, w.order[i]) <==> ListedAnswer(w, Collected(w.order, a.results), i)
      ensures IsAnswer(w, a.state, w.order[i]) ==> Lookup(a.outputs, w.order[i]) == Collected(w.order, a.results)[i].output
    {
      AnswerListed(w, table, a, i);
    }
    LastIsListed(w, a.state, a.outputs, Collected(w.order, a.results));
    FinishedAnswers(w, table, a);
  }

  /** The recorded failure is the failed step's own error. */
  ghost predicate FailureMatchesResult(b: Board) {
    b.failure.Some? ==> b.failure.value.0 in b.results && b.results[b.failure.value.0].error == b.failure.value.1
  }

  lemma AdmitOneMatches(w: Plan, b: Board, id: string)
    requires id in w.steps && id in w.deps && FailureMatchesResult(b)
    ensures FailureMatchesResult(AdmitOne(w, b, id))
  {
  }

  lemma {:induction false} AdmitMatches(w: Plan, b: Board, i: nat)
    requires Known(w) && i <= |w.order| && FailureMatchesResult(b)
    ensures FailureMatchesResult(AdmitFrom(w, b, i))
    decreases |w.order| - i
  {
    if i < |w.order| {
      AdmitOneMatches(w, b, w.order[i]);
      AdmitMatches(w, AdmitOne(w, b, w.order[i]), i + 1);
    }
  }

  lemma ReceivedMatches(w: Plan, table: Table, a: Board, id: string, interrupted: bool)
    requires Inv(w, table, a) && id in a.inflight && id in w.steps && FailureMatchesResult(a)
    ensures FailureMatchesResult(Received(w, a, id, interrupted))
  {
    assert Good(w, table, a, id);
    assert a.failure.Some? ==> Is(a, a.failure.value.0, Failed);
  }

  lemma {:induction false} RunMatches(w: Plan, table: Table, trace: seq<Event>)
    requires Valid(w) && IsReference(w, table) && BoardAfter(w, trace).Some?
    ensures FailureMatchesResult(BoardAfter(w, trace).value) && FailureMatchesResult(Admit(w, BoardAfter(w, trace).value))
  {
    if trace != [] {
      var n := |trace| - 1;
      LastEvent(w, trace);
      RunMatches(w, table, trace[..n]);
      RunKeeps(w, table, trace[..n]);
      ReceivedMatches(w, table, Admit(w, BoardAfter(w, trace[..n]).value), trace[n].id, trace[n].interrupted);
    }
    AdmitMatches(w, BoardAfter(w, trace).value, 0);
  }

  lemma FailureIsGenuine(w: Plan, table: Table, trace: seq<Event>, a: Board)
    requires Valid(w) && IsReference(w, table) && BoardAfter(w, trace).Some? && a.failure.Some?
    requires a == BoardAfter(w, trace).value || a == Admit(w, BoardAfter(w, trace).value)
    ensures FailureTrue(w, table, a.failure.value.0, a.failure.value.1)
  {
    RunKeeps(w, table, trace);
    RunMatches(w, table, trace);
    RunCauses(w, table, trace);
    assert CauseTrue(w, table, a, a.failure.value.0);
    assert Good(w, table, a, a.failure.value.0);
  }

  /** For a pipeline the registry accepted, RunPipeline fails on a missing input or ends in one of
      the four ways; it never meets a graph problem. */
  method RunRegistered(p: Pipeline, inputs: map<string, string>, agents: (string, string) -> AgentResult, codec: Codec)
    returns (r: RunResult, ghost w: Plan, ghost table: Table, ghost trace: seq<Event>, ghost ending: Ending)
    requires Validated(p)
    ensures Elements(p.inputs) <= inputs.Keys ==>
              && IsPlan(w, p, inputs) && w.agents == agents && w.codec == codec
              && Valid(w) && IsReference(w, table) && Explains(ending, w, table, trace, r)
    ensures !(Elements(p.inputs) <= inputs.Keys) ==>
              r.error.Some? && r.error.value.MissingInput? && r.error.value.name in p.inputs && r.error.value.name !in inputs
  {
    ghost var rank;
    r, w, trace, rank := RunPipeline(p, inputs, agents, codec);
    table, ending := map[], AsReference;
    if r.error.None? || !r.error.value.MissingInput? {
      PlanIsValid(p, inputs, w);
      table := ReferenceExists(w, rank);
      ending := RunExplained(w, rank, table, trace, r);
    }
  }
}
