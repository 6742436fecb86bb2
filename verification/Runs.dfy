/** What every run of the scheduler keeps: whatever order completions arrive in, each finished
    step has exactly its reference verdict, and starts are safe. */
module Runs {
  import opened Prelude
  import opened Model
  import opened Scheduler
  import opened Reference
  import Template
  import TemplateLaws
  import Routing
  import Graph

  ghost predicate Is(b: Board, id: string, s: Status) {
    id in b.state && b.state[id] == s
  }

  ghost predicate DepsCompleted(w: Plan, b: Board, id: string)
    requires id in w.deps
  {
    forall d :: d in w.deps[id] ==> Is(b, d, Completed)
  }

  ghost function DoneOutcome(id: string, v: Verdict): Outcome
    requires v.Done?
  {
    Outcome(id, Completed, v.output, NoError, v.tokens)
  }

  /** A completed router has marked every other target. */
  ghost predicate LosersMarked(w: Plan, table: Table, b: Board, r: string) {
    forall t :: Loses(w, table, r, t) ==> Is(b, t, Skipped)
  }

  ghost predicate GoodInFlight(w: Plan, table: Table, b: Board, id: string)
    requires id in w.deps && id in table
  {
    id in b.inflight ==>
      && id !in b.pending && id !in b.state && DepsCompleted(w, b, id)
      && table[id].input == Some(b.inflight[id]) && !IsSkip(table, id)
  }

  /** A step fails because the reference halts there, or because its agent was interrupted; an
      input that does not resolve is a failed JSON path lookup. */
  ghost predicate FailureExplained(table: Table, id: string, e: StepError) {
    && id in table && !IsSkip(table, id)
    && (table[id].verdict.Halted? || e.Interrupted?)
    && (e.ResolveError? ==> e.why.PathFailed?)
  }

  ghost predicate GoodState(w: Plan, table: Table, b: Board, id: string)
    requires id in w.deps && id in table
  {
    id in b.state ==>
      match b.state[id]
      case Completed =>
        && IsDone(table, id) && id !in b.pending && DepsCompleted(w, b, id)
        && id in b.outputs && b.outputs[id] == table[id].verdict.output
        && id in b.results && b.results[id] == DoneOutcome(id, table[id].verdict)
        && LosersMarked(w, table, b, id)
      case Skipped =>
        && IsSkip(table, id)
        && (id !in b.pending ==> id in b.results && b.results[id] == SkippedOutcome(id))
      case Failed =>
        && b.failure.Some? && id !in b.pending && DepsCompleted(w, b, id)
        && id in b.results && b.results[id].status == Failed
        && FailureExplained(table, id, b.results[id].error)
  }

  /** Each step is waiting, in flight, or finished in agreement with the reference. */
  ghost predicate Good(w: Plan, table: Table, b: Board, id: string)
    requires id in w.deps && id in table
  {
    && GoodInFlight(w, table, b, id)
    && GoodState(w, table, b, id)
    && (id in b.pending || id in b.inflight || id in b.state)
    && (id in b.outputs ==> Is(b, id, Completed))
  }

  /** The record of starts: none twice, and none of a step that is pending or skipped. */
  ghost predicate GoodLog(b: Board) {
    && NoDup(b.launched)
    && (forall id :: id in b.launched ==> id !in b.pending && !Is(b, id, Skipped))
    && (forall id :: id in b.inflight ==> id in b.launched)
    && (forall id :: Is(b, id, Completed) ==> id in b.launched)
  }

  /** A recorded failure names a failed step. */
  ghost predicate FailureNamed(b: Board) {
    b.failure.Some? ==> Is(b, b.failure.value.0, Failed)
  }

  ghost predicate InDomain(w: Plan, b: Board) {
    b.pending <= w.steps.Keys && b.inflight.Keys <= w.steps.Keys && b.state.Keys <= w.steps.Keys
    && b.outputs.Keys <= w.steps.Keys
  }

  ghost function Earned(table: Table, state: map<string, Status>, id: string): int {
    if id in state && state[id] == Completed && IsDone(table, id) then table[id].verdict.tokens else 0
  }

  /** Tokens of the completed steps among the first n. */
  ghost function TokenSum(order: seq<string>, table: Table, state: map<string, Status>, n: nat): int
    requires n <= |order|
  {
    if n == 0 then 0 else TokenSum(order, table, state, n - 1) + Earned(table, state, order[n-1])
  }

  ghost predicate AllGood(w: Plan, table: Table, b: Board)
    requires table.Keys == w.deps.Keys
  {
    forall id {:trigger Good(w, table, b, id)} :: id in w.deps ==> Good(w, table, b, id)
  }

  ghost predicate Inv(w: Plan, table: Table, b: Board) {
    && InDomain(w, b)
    && IsReference(w, table)
    && AllGood(w, table, b)
    && GoodLog(b) && FailureNamed(b)
    && b.tokens == TokenSum(w.order, table, b.state, |w.order|)
  }

  // --------------------------------------------------------------------- token sums

  lemma {:induction false} TokenSumSame(order: seq<string>, table: Table, s: map<string, Status>, s': map<string, Status>, n: nat)
    requires n <= |order|
    requires forall i :: 0 <= i < n ==> Earned(table, s, order[i]) == Earned(table, s', order[i])
    ensures TokenSum(order, table, s, n) == TokenSum(order, table, s', n)
  {
    if n > 0 { TokenSumSame(order, table, s, s', n - 1); }
  }

  lemma {:induction false} TokenSumAdd(order: seq<string>, table: Table, s: map<string, Status>, s': map<string, Status>, n: nat, id: string)
    requires n <= |order| && NoDup(order)
    requires forall x :: x != id ==> Earned(table, s, x) == Earned(table, s', x)
    ensures TokenSum(order, table, s', n) == TokenSum(order, table, s, n)
            + if id in order[..n] then Earned(table, s', id) - Earned(table, s, id) else 0
  {
    if n > 0 {
      TokenSumAdd(order, table, s, s', n - 1, id);
      assert order[..n] == order[..n-1] + [order[n-1]];
      if order[n-1] == id {
        assert id !in order[..n-1];
      }
    }
  }

  // ------------------------------------------------------------------ frame reasoning

  /** Completed and skipped steps stay so, and a failure stays recorded. */
  ghost predicate Grows(b: Board, b': Board) {
    && (forall d :: Is(b, d, Completed) ==> Is(b', d, Completed))
    && (forall d :: Is(b, d, Skipped) ==> Is(b', d, Skipped))
    && (b.failure.Some? ==> b'.failure.Some?)
  }

  ghost predicate SameAt(b: Board, b': Board, x: string) {
    && (x in b.pending <==> x in b'.pending)
    && (x in b.inflight <==> x in b'.inflight) && (x in b.inflight ==> b.inflight[x] == b'.inflight[x])
    && (x in b.state <==> x in b'.state) && (x in b.state ==> b.state[x] == b'.state[x])
    && (x in b.results <==> x in b'.results) && (x in b.results ==> b.results[x] == b'.results[x])
    && (x in b.outputs <==> x in b'.outputs) && (x in b.outputs ==> b.outputs[x] == b'.outputs[x])
  }

  lemma GoodStable(w: Plan, table: Table, b: Board, b': Board, x: string)
    requires x in w.deps && x in table
    requires Good(w, table, b, x) && SameAt(b, b', x) && Grows(b, b')
    ensures Good(w, table, b', x)
  {
  }

  lemma GoodStableAll(w: Plan, table: Table, b: Board, b': Board, id: string)
    requires table.Keys == w.deps.Keys && AllGood(w, table, b) && Grows(b, b')
    requires forall x :: x in w.deps && x != id ==> SameAt(b, b', x)
    ensures forall x {:trigger Good(w, table, b', x)} :: x in w.deps && x != id ==> Good(w, table, b', x)
  {
    forall x | x in w.deps && x != id ensures Good(w, table, b', x) {
      GoodStable(w, table, b, b', x);
    }
  }

  // ------------------------------------------------------------------------ admission

  lemma {:induction false} SkipHasCause(state: map<string, Status>, deps: seq<string>) returns (d: string)
    requires DepStatus(state, deps) == MustSkip
    ensures d in deps && d in state && state[d] != Completed
  {
    if state[deps[0]] == Completed {
      d := SkipHasCause(state, deps[1..]);
    } else {
      d := deps[0];
    }
  }

  lemma {:induction false} ReadyMeansCompleted(state: map<string, Status>, deps: seq<string>)
    requires DepStatus(state, deps) == Ready
    ensures forall d :: d in deps ==> d in state && state[d] == Completed
  {
    if deps != [] { ReadyMeansCompleted(state, deps[1..]); }
  }

  lemma DropGood(w: Plan, table: Table, b: Board, id: string)
    requires table.Keys == w.deps.Keys && AllGood(w, table, b) && id in w.deps && id in b.pending && IsSkip(table, id)
    ensures AllGood(w, table, Dropped(b, id))
  {
    var b' := Dropped(b, id);
    assert Good(w, table, b, id);
    GoodStableAll(w, table, b, b', id);
  }

  lemma DropKeeps(w: Plan, table: Table, b: Board, id: string)
    requires Inv(w, table, b) && id in w.deps && id in b.pending && IsSkip(table, id)
    ensures Inv(w, table, Dropped(b, id))
  {
    var b' := Dropped(b, id);
    assert Good(w, table, b, id);
    DropGood(w, table, b, id);
    TokenSumSame(w.order, table, b.state, b'.state, |w.order|);
  }

  /** With its dependencies completed, a step resolves to its reference input. */
  lemma LaunchInput(w: Plan, table: Table, b: Board, id: string)
    requires Valid(w) && Inv(w, table, b) && id in w.deps && DepsCompleted(w, b, id)
    ensures ResolvedInput(w, b, id) == InputOf(w, table, id)
  {
    var s := w.steps[id];
    var a, r := Template.Scope(w.inputs, b.outputs), Template.Scope(w.inputs, OutputsOf(table, w.deps[id]));
    assert StepFine(w, id);
    var refs := Template.Parsed(s.input).value;
    forall i | 0 <= i < |refs| ensures TemplateLaws.SameFor(refs[i], a, r) {
      if refs[i].OutputRef? {
        var d := refs[i].stepId;
        Graph.OutputIdsMember(refs, i);
        assert d in w.deps[id] && Is(b, d, Completed) && Good(w, table, b, d);
      }
    }
    TemplateLaws.ResolvedLocal(s.input, a, r, w.codec);
  }

  /** ... and can only fail to resolve on a JSON path. */
  lemma LaunchFailsOnPath(w: Plan, table: Table, b: Board, id: string)
    requires Valid(w) && Inv(w, table, b) && id in w.deps && DepsCompleted(w, b, id)
    ensures ResolvedInput(w, b, id).Err? ==> ResolvedInput(w, b, id).error.PathFailed?
  {
    var s := w.steps[id];
    var a := Template.Scope(w.inputs, b.outputs);
    assert StepFine(w, id);
    var refs := Template.Parsed(s.input).value;
    forall i | 0 <= i < |refs| && refs[i].OutputRef? ensures refs[i].stepId in a.outputs {
      var d := refs[i].stepId;
      Graph.OutputIdsMember(refs, i);
      assert d in w.deps[id] && Is(b, d, Completed) && Good(w, table, b, d);
    }
    TemplateLaws.ResolveFailsOnlyOnPath(s.input, a, w.codec);
  }

  /** A step that is ready and not marked as a loser is one the reference starts. */
  lemma LaunchEntry(w: Plan, table: Table, b: Board, id: string)
    requires Valid(w) && Inv(w, table, b) && id in w.deps && DepsCompleted(w, b, id) && !Is(b, id, Skipped)
    ensures ResolvedInput(w, b, id).Ok? ==> table[id].input == Some(ResolvedInput(w, b, id).value)
    ensures ResolvedInput(w, b, id).Err? ==> table[id] == Entry(Halted, None)
    ensures !IsSkip(table, id)
  {
    forall d | d in w.deps[id] ensures IsDone(table, d) && !IsSkip(table, d) && !Loses(w, table, d, id) {
      assert Is(b, d, Completed) && Good(w, table, b, d);
    }
    LaunchInput(w, table, b, id);
    assert table[id] == EntryOf(w, table, id);
  }

  /** Starting a step keeps the invariant, whatever its input resolved to. */
  lemma StartGood(w: Plan, table: Table, b: Board, id: string, resolved: Result<string, Template.Error>)
    requires table.Keys == w.deps.Keys && AllGood(w, table, b)
    requires id in w.deps && id in b.pending && b.failure.None?
    requires DepsCompleted(w, b, id) && id !in b.state
    requires resolved.Ok? ==> table[id].input == Some(resolved.value) && !IsSkip(table, id)
    requires resolved.Err? ==> FailureExplained(table, id, ResolveError(resolved.error))
    ensures AllGood(w, table, Started(b.(pending := b.pending - {id}), id, resolved))
  {
    assert Good(w, table, b, id);
    GoodStableAll(w, table, b, Started(b.(pending := b.pending - {id}), id, resolved), id);
  }

  lemma StartLog(b: Board, id: string, resolved: Result<string, Template.Error>)
    requires GoodLog(b) && id in b.pending && id !in b.state
    ensures GoodLog(Started(b.(pending := b.pending - {id}), id, resolved))
  {
  }

  lemma LaunchKeeps(w: Plan, table: Table, b: Board, id: string)
    requires Valid(w) && Inv(w, table, b) && id in w.deps && id in b.pending && b.failure.None?
    requires DepsCompleted(w, b, id) && !Is(b, id, Skipped)
    ensures Inv(w, table, Launched(w, b.(pending := b.pending - {id}), id))
  {
    var b0 := b.(pending := b.pending - {id});
    var resolved := ResolvedInput(w, b, id);
    var b' := Started(b0, id, resolved);
    assert Launched(w, b0, id) == b';
    assert Good(w, table, b, id);
    LaunchEntry(w, table, b, id);
    LaunchFailsOnPath(w, table, b, id);
    StartGood(w, table, b, id, resolved);
    StartLog(b, id, resolved);
    TokenSumSame(w.order, table, b.state, b'.state, |w.order|);
  }

  lemma AdmitOneKeeps(w: Plan, table: Table, b: Board, id: string)
    requires Valid(w) && Inv(w, table, b) && id in w.deps
    ensures Inv(w, table, AdmitOne(w, b, id))
  {
    if b.failure.None? && id in b.pending {
      assert Good(w, table, b, id);
      if Is(b, id, Skipped) {
        DropKeeps(w, table, b, id);
      } else if DepStatus(b.state, w.deps[id]) == MustSkip {
        var d := SkipHasCause(b.state, w.deps[id]);
        assert Good(w, table, b, d);
        assert table[id] == EntryOf(w, table, id);
        DropKeeps(w, table, b, id);
      } else if DepStatus(b.state, w.deps[id]) == Ready {
        ReadyMeansCompleted(b.state, w.deps[id]);
        LaunchKeeps(w, table, b, id);
      }
    }
  }

  lemma {:induction false} AdmitKeeps(w: Plan, table: Table, b: Board, i: nat)
    requires Valid(w) && Inv(w, table, b) && i <= |w.order|
    ensures Inv(w, table, AdmitFrom(w, b, i))
    decreases |w.order| - i
  {
    if i < |w.order| {
      var id := w.order[i];
      assert id in w.order;
      AdmitOneKeeps(w, table, b, id);
      var b1 := AdmitOne(w, b, id);
      AdmitKeeps(w, table, b1, i + 1);
      assert AdmitFrom(w, b, i) == AdmitFrom(w, b1, i + 1);
    }
  }

  // ------------------------------------------------------------------------ completion

  lemma {:induction false} SkipLosersAt(state: map<string, Status>, routes: seq<Route>, target: string, x: string)
    ensures var s := SkipLosers(state, routes, target);
            if x in Targets(routes) && x != target then x in s && s[x] == Skipped
            else (x in s <==> x in state) && (x in state ==> s[x] == state[x])
  {
    if routes != [] {
      var n := |routes| - 1;
      assert routes == routes[..n] + [routes[n]];
      assert Targets(routes) == Targets(routes[..n]) + {routes[n].target};
      SkipLosersAt(state, routes[..n], target, x);
    }
  }

  lemma TargetIsWaiting(w: Plan, table: Table, b: Board, r: string, t: string)
    requires Valid(w) && Inv(w, table, b) && r in b.inflight && RoutesTo(w, r, t)
    ensures t in w.deps && t !in b.inflight && (t in b.state ==> Is(b, t, Skipped)) && t != r
  {
    assert Good(w, table, b, r) && Good(w, table, b, t);
    assert r in w.deps[t] && !Is(b, r, Completed);
  }

  /** What a step's goroutine reports is its verdict. */
  lemma WorkMeans(w: Plan, id: string, input: string)
    requires id in w.steps
    ensures var c := Work(w, id, input, false);
            WorkVerdict(w, id, input) == if c.out.status == Completed then Done(c.out.output, c.out.tokens, c.target) else Halted
  {
    if w.steps[id].router {
      Routing.PickedMeans(w.steps[id].routes, input, w.codec);
      var picked := Routing.Picked(w.steps[id].routes, input, w.codec, None);
      forall t ensures RoutedTo(w, id, input, t) <==> picked == Ok(t) {}
    }
  }

  /** A completion reported as COMPLETED carries the reference verdict. */
  lemma CompletionMatches(w: Plan, table: Table, id: string, input: string, interrupted: bool)
    requires Valid(w) && IsReference(w, table) && id in w.deps && table[id].input == Some(input)
    requires Work(w, id, input, interrupted).out.status == Completed
    ensures var c := Work(w, id, input, interrupted);
            && table[id].verdict == Done(c.out.output, c.out.tokens, c.target)
            && c.out == DoneOutcome(id, table[id].verdict)
            && (if w.steps[id].router then c.target != "" && c.out.output == "" && c.out.tokens == 0
                else c.target == "")
  {
    WorkMeans(w, id, input);
    assert table[id] == EntryOf(w, table, id);
  }

  lemma FailureMatches(w: Plan, table: Table, id: string, input: string, interrupted: bool)
    requires IsReference(w, table) && id in w.deps && table[id].input == Some(input)
    requires Work(w, id, input, interrupted).out.status == Failed
    ensures FailureExplained(table, id, Work(w, id, input, interrupted).out.error)
  {
    WorkMeans(w, id, input);
    assert table[id] == EntryOf(w, table, id);
  }

  /** Recording the completion of an in-flight step keeps the record of starts. */
  lemma AppliedLog(b: Board, id: string, b': Board)
    requires GoodLog(b) && id in b.inflight && id !in b.pending
    requires b'.launched == b.launched && b'.pending == b.pending && b'.inflight == b.inflight - {id}
    requires !Is(b', id, Skipped)
    requires forall x :: x != id && Is(b', x, Skipped) ==> Is(b, x, Skipped) || x !in b.launched
    requires forall x :: x != id && Is(b', x, Completed) ==> Is(b, x, Completed)
    ensures GoodLog(b')
  {
  }

  lemma FailedGood(w: Plan, table: Table, b: Board, id: string, routes: seq<Route>, c: Completion)
    requires table.Keys == w.deps.Keys && AllGood(w, table, b) && id in w.deps && id in b.inflight
    requires c.out.status == Failed && FailureExplained(table, id, c.out.error)
    ensures AllGood(w, table, Applied(b, id, routes, c))
  {
    assert Good(w, table, b, id);
    GoodStableAll(w, table, b, Applied(b, id, routes, c), id);
  }

  lemma FailedKeeps(w: Plan, table: Table, b: Board, id: string, routes: seq<Route>, c: Completion)
    requires Inv(w, table, b) && id in b.inflight
    requires c.out.status == Failed && FailureExplained(table, id, c.out.error)
    ensures Inv(w, table, Applied(b, id, routes, c))
  {
    var b' := Applied(b, id, routes, c);
    assert Good(w, table, b, id);
    FailedGood(w, table, b, id, routes, c);
    AppliedLog(b, id, b');
    TokenSumSame(w.order, table, b.state, b'.state, |w.order|);
  }

  lemma AgentDoneGood(w: Plan, table: Table, b: Board, id: string, routes: seq<Route>, c: Completion)
    requires table.Keys == w.deps.Keys == w.steps.Keys && AllGood(w, table, b) && id in w.deps && id in b.inflight
    requires c.out.status == Completed && c.target == "" && !w.steps[id].router
    requires table[id].verdict == Done(c.out.output, c.out.tokens, c.target) && c.out == DoneOutcome(id, table[id].verdict)
    ensures AllGood(w, table, Applied(b, id, routes, c))
  {
    assert Good(w, table, b, id);
    GoodStableAll(w, table, b, Applied(b, id, routes, c), id);
  }

  lemma {:induction false} EarnedOnce(order: seq<string>, table: Table, b: Board, b': Board, id: string)
    requires NoDup(order) && id in order && id !in b.state && IsDone(table, id) && Is(b', id, Completed)
    requires forall x :: x != id ==> (Is(b, x, Completed) <==> Is(b', x, Completed))
    ensures TokenSum(order, table, b'.state, |order|) == TokenSum(order, table, b.state, |order|) + table[id].verdict.tokens
  {
    forall x | x != id ensures Earned(table, b.state, x) == Earned(table, b'.state, x) {
      assert Is(b, x, Completed) <==> Is(b', x, Completed);
    }
    TokenSumAdd(order, table, b.state, b'.state, |order|, id);
    assert order[..|order|] == order;
  }

  lemma AgentDoneLog(w: Plan, table: Table, b: Board, id: string, routes: seq<Route>, c: Completion)
    requires Inv(w, table, b) && id in b.inflight && c.out.status == Completed && c.target == ""
    ensures GoodLog(Applied(b, id, routes, c)) && FailureNamed(Applied(b, id, routes, c))
  {
    assert Good(w, table, b, id);
    AppliedLog(b, id, Applied(b, id, routes, c));
  }

  lemma AgentDoneTokens(w: Plan, table: Table, b: Board, id: string, routes: seq<Route>, c: Completion)
    requires Valid(w) && Inv(w, table, b) && id in b.inflight && c.out.status == Completed && c.target == ""
    requires table[id].verdict == Done(c.out.output, c.out.tokens, c.target)
    ensures var b' := Applied(b, id, routes, c); b'.tokens == TokenSum(w.order, table, b'.state, |w.order|)
  {
    assert Good(w, table, b, id) && id in Elements(w.order);
    EarnedOnce(w.order, table, b, Applied(b, id, routes, c), id);
  }

  lemma AgentDoneKeeps(w: Plan, table: Table, b: Board, id: string, routes: seq<Route>, c: Completion)
    requires Valid(w) && Inv(w, table, b) && id in b.inflight
    requires c.out.status == Completed && c.target == "" && !w.steps[id].router
    requires table[id].verdict == Done(c.out.output, c.out.tokens, c.target) && c.out == DoneOutcome(id, table[id].verdict)
    ensures Inv(w, table, Applied(b, id, routes, c))
  {
    assert Good(w, table, b, id);
    AgentDoneGood(w, table, b, id, routes, c);
    AgentDoneLog(w, table, b, id, routes, c);
    AgentDoneTokens(w, table, b, id, routes, c);
  }

  /** What a completed router does to the status of any step. */
  lemma RouterStatus(w: Plan, table: Table, b: Board, id: string, c: Completion, x: string)
    requires Valid(w) && Inv(w, table, b) && id in b.inflight
    requires c.out.status == Completed && c.target != "" && w.steps[id].router
    requires table[id].verdict == Done(c.out.output, c.out.tokens, c.target)
    ensures var b' := Applied(b, id, w.steps[id].routes, c);
            && (Loses(w, table, id, x) ==>
                  x in w.deps && Is(b', x, Skipped) && IsSkip(table, x) && (x in b.state ==> Is(b, x, Skipped)) && x !in b.inflight && x != id)
            && (!Loses(w, table, id, x) && x != id ==> (x in b'.state <==> x in b.state) && (x in b.state ==> b'.state[x] == b.state[x]))
            && (x == id ==> Is(b', id, Completed))
  {
    SkipLosersAt(b.state[id := c.out.status], w.steps[id].routes, c.target, x);
    if x in Targets(w.steps[id].routes) {
      TargetIsWaiting(w, table, b, id, x);
      if x != c.target {
        assert table[x] == EntryOf(w, table, x);
      }
    }
  }

  lemma RouterDoneGood(w: Plan, table: Table, b: Board, id: string, c: Completion)
    requires Valid(w) && Inv(w, table, b) && id in b.inflight
    requires c.out.status == Completed && c.target != "" && w.steps[id].router && c.out.output == ""
    requires table[id].verdict == Done(c.out.output, c.out.tokens, c.target) && c.out == DoneOutcome(id, table[id].verdict)
    ensures AllGood(w, table, Applied(b, id, w.steps[id].routes, c))
  {
    var b' := Applied(b, id, w.steps[id].routes, c);
    forall x ensures Is(b, x, Completed) ==> Is(b', x, Completed)
             ensures Is(b, x, Skipped) ==> Is(b', x, Skipped)
             ensures Loses(w, table, id, x) ==> Is(b', x, Skipped)
    {
      RouterStatus(w, table, b, id, c, x);
    }
    assert Grows(b, b') && LosersMarked(w, table, b', id);
    forall x | x in w.deps ensures Good(w, table, b', x) {
      RouterStatus(w, table, b, id, c, x);
      assert Good(w, table, b, x);
      if x != id && !Loses(w, table, id, x) {
        GoodStable(w, table, b, b', x);
      }
    }
  }

  lemma RouterDoneFrame(w: Plan, table: Table, b: Board, id: string, c: Completion)
    requires Valid(w) && Inv(w, table, b) && id in b.inflight
    requires c.out.status == Completed && c.target != "" && w.steps[id].router
    requires table[id].verdict == Done(c.out.output, c.out.tokens, c.target)
    ensures var b' := Applied(b, id, w.steps[id].routes, c);
            && b'.state.Keys <= w.deps.Keys
            && (forall x :: x != id ==> (Is(b, x, Completed) <==> Is(b', x, Completed)))
            && (forall x :: x != id && Is(b', x, Skipped) ==> Is(b, x, Skipped) || x !in b.launched)
            && (forall x :: x != id && Is(b, x, Failed) ==> Is(b', x, Failed))
            && Is(b', id, Completed)
  {
    var b' := Applied(b, id, w.steps[id].routes, c);
    forall x
      ensures x in b'.state ==> x in w.deps
      ensures x != id ==> (Is(b, x, Completed) <==> Is(b', x, Completed))
      ensures x != id && Is(b', x, Skipped) ==> Is(b, x, Skipped) || x !in b.launched
      ensures x != id && Is(b, x, Failed) ==> Is(b', x, Failed)
    {
      RouterStatus(w, table, b, id, c, x);
      if Loses(w, table, id, x) { assert Good(w, table, b, x); }
    }
    RouterStatus(w, table, b, id, c, id);
  }

  lemma RouterDoneKeeps(w: Plan, table: Table, b: Board, id: string, c: Completion)
    requires Valid(w) && Inv(w, table, b) && id in b.inflight
    requires c.out.status == Completed && c.target != "" && w.steps[id].router && c.out.output == "" && c.out.tokens == 0
    requires table[id].verdict == Done(c.out.output, c.out.tokens, c.target) && c.out == DoneOutcome(id, table[id].verdict)
    ensures Inv(w, table, Applied(b, id, w.steps[id].routes, c))
  {
    var b' := Applied(b, id, w.steps[id].routes, c);
    assert Good(w, table, b, id);
    RouterDoneGood(w, table, b, id, c);
    RouterDoneFrame(w, table, b, id, c);
    AppliedLog(b, id, b');
    assert id in Elements(w.order);
    EarnedOnce(w.order, table, b, b', id);
  }

  lemma ReceiveKeeps(w: Plan, table: Table, b: Board, id: string, interrupted: bool)
    requires Valid(w) && Inv(w, table, b) && id in b.inflight
    ensures Inv(w, table, Received(w, b, id, interrupted))
  {
    assert Good(w, table, b, id);
    var c := Work(w, id, b.inflight[id], interrupted);
    if c.out.status == Completed {
      CompletionMatches(w, table, id, b.inflight[id], interrupted);
      if w.steps[id].router {
        RouterDoneKeeps(w, table, b, id, c);
      } else {
        AgentDoneKeeps(w, table, b, id, w.steps[id].routes, c);
      }
    } else {
      FailureMatches(w, table, id, b.inflight[id], interrupted);
      FailedKeeps(w, table, b, id, w.steps[id].routes, c);
    }
  }

  // --------------------------------------------------------------------- whole runs

  lemma StartKeeps(w: Plan, table: Table)
    requires Valid(w) && IsReference(w, table)
    ensures Inv(w, table, Start(w))
  {
    var b := Start(w);
    forall id | id in w.deps ensures Good(w, table, b, id) {
      assert id in Elements(w.order);
    }
    forall i | 0 <= i < |w.order| ensures Earned(table, b.state, w.order[i]) == 0 {}
    NothingEarned(w.order, table, |w.order|);
  }

  lemma {:induction false} NothingEarned(order: seq<string>, table: Table, n: nat)
    requires n <= |order|
    ensures TokenSum(order, table, map[], n) == 0
  {
    if n > 0 { NothingEarned(order, table, n - 1); }
  }

  /** The invariant holds at the loop head and after admission, in every run. */
  lemma {:induction false} RunKeeps(w: Plan, table: Table, trace: seq<Event>)
    requires Valid(w) && IsReference(w, table) && BoardAfter(w, trace).Some?
    ensures Inv(w, table, BoardAfter(w, trace).value)
    ensures Inv(w, table, Admit(w, BoardAfter(w, trace).value))
  {
    if trace == [] {
      StartKeeps(w, table);
      AdmitKeeps(w, table, Start(w), 0);
    } else {
      var e, before := trace[|trace|-1], trace[..|trace|-1];
      RunKeeps(w, table, before);
      var a := Admit(w, BoardAfter(w, before).value);
      var b := Received(w, a, e.id, e.interrupted);
      assert BoardAfter(w, trace) == Some(b);
      ReceiveKeeps(w, table, a, e.id, e.interrupted);
      AdmitKeeps(w, table, b, 0);
    }
  }
}
