/** Which router-free pipelines can lose a completion, inputs that fail to resolve included. */
module SinkLoss {
  import opened Prelude
  import opened Scheduler
  import opened Reference
  import opened Runs
  import opened Progress
  import opened Drains
  import Clearing
  import Graph
  import RunTheorems

  /** The step's dependencies complete, and its input does not resolve. */
  ghost predicate Unresolvable(w: Plan, table: Table, u: string) {
    u in w.deps && u in table && AllDone(w, table, u) && table[u] == Entry(Halted, None)
  }

  /** A step with dependents that never completes. */
  ghost predicate HaltsInside(w: Plan, table: Table, h: string) {
    h in table && table[h].verdict.Halted? && !Sink(w, h)
  }

  /** The n-th step is the last one declared, and no step has dependencies. */
  ghost predicate LastOfAll(w: Plan, n: nat) {
    n == |w.order| - 1 && forall id :: id in w.deps ==> w.deps[id] == []
  }

  /** Whatever else depends on d has no dependents and is declared before the n-th step. */
  ghost predicate LastBehind(w: Plan, n: nat, d: string)
    requires n < |w.order|
  {
    && w.order[n] in w.deps && d in w.deps[w.order[n]]
    && forall p :: p in w.deps && d in w.deps[p] && p != w.order[n] ==> Sink(w, p) && p in w.order[..n]
  }

  /** The n-th step can be the last one a run comes to. */
  ghost predicate ComesLast(w: Plan, n: nat)
    requires n < |w.order|
  {
    LastOfAll(w, n) || exists d :: LastBehind(w, n, d)
  }

  /** The n-th step is the only unresolvable one. */
  ghost predicate OnlyUnresolvable(w: Plan, table: Table, n: nat)
    requires n < |w.order|
  {
    Unresolvable(w, table, w.order[n]) && forall v :: Unresolvable(w, table, v) ==> v == w.order[n]
  }

  /** Every input resolves, or the only one that does not can be left to the end. */
  ghost predicate FailureCanWait(w: Plan, table: Table) {
    || (forall v :: !Unresolvable(w, table, v))
    || exists n: nat :: n < |w.order| && OnlyUnresolvable(w, table, n) && ComesLast(w, n)
  }

  /** A step without dependents that is started when its turn comes. */
  ghost predicate StartedSink(w: Plan, table: Table, x: string) {
    Sink(w, x) && !Unresolvable(w, table, x)
  }

  ghost predicate TwoStartedSinks(w: Plan, table: Table) {
    exists x, y :: x != y && StartedSink(w, table, x) && StartedSink(w, table, y)
  }

  // ---------------------------------------------------------------- inside a pass

  lemma AdmitOneCompletesNothing(w: Plan, b: Board, id: string, d: string)
    requires id in w.steps && id in w.deps && Is(AdmitOne(w, b, id), d, Completed)
    ensures Is(b, d, Completed)
  {
  }

  lemma {:induction false} PassCompletesNothing(w: Plan, b: Board, k: nat, d: string)
    requires Known(w) && k <= |w.order| && Is(AdmitTo(w, b, k), d, Completed)
    ensures Is(b, d, Completed)
  {
    if k > 0 {
      AdmitOneCompletesNothing(w, AdmitTo(w, b, k - 1), w.order[k-1], d);
      PassCompletesNothing(w, b, k - 1, d);
    }
  }

  lemma AdmitCompletesNothing(w: Plan, b: Board, d: string)
    requires Known(w) && Is(Admit(w, b), d, Completed)
    ensures Is(b, d, Completed)
  {
    AdmitToEnd(w, b, |w.order|);
    PassCompletesNothing(w, b, |w.order|, d);
  }

  /** Nothing is skipped, so without a failure a status means completed. */
  lemma StatusIsCompleted(w: Plan, rank: Graph.Ranking, table: Table, b: Board, q: string)
    requires Valid(w) && Graph.Ranks(w.deps, rank) && RouterFree(w) && Inv(w, table, b) && b.failure.None? && q in w.deps
    ensures q in b.state <==> Is(b, q, Completed)
    ensures q in b.pending <==> q !in b.inflight && q !in b.state
    ensures q !in b.pending ==> DepsCompleted(w, b, q)
  {
    NoSkips(w, rank, table, q);
    assert Good(w, table, b, q);
  }

  // ----------------------------------------------------- what a loss shows: the failure

  /** The visit at which a pass fails. */
  lemma {:induction false} FailingVisit(w: Plan, b: Board, k: nat) returns (n: nat)
    requires Known(w) && k <= |w.order| && b.failure.None? && AdmitTo(w, b, k).failure.Some?
    ensures n < |w.order| && AdmitTo(w, b, n).failure.None? && AdmitTo(w, b, n + 1).failure.Some?
  {
    if AdmitTo(w, b, k - 1).failure.Some? {
      n := FailingVisit(w, b, k - 1);
    } else {
      n := k - 1;
    }
  }

  /** A board on which the only pending step is ready and unresolvable. */
  ghost predicate EndsOn(w: Plan, table: Table, at: Board, u: string) {
    && Inv(w, table, at) && at.failure.None? && at.pending == {u}
    && u in w.deps && DepsCompleted(w, at, u) && Unresolvable(w, table, u)
  }

  lemma FailingStep(w: Plan, table: Table, at: Board, u: string)
    requires Valid(w) && Inv(w, table, at) && u in w.deps && at.failure.None? && AdmitOne(w, at, u).failure.Some?
    ensures u in at.pending && DepsCompleted(w, at, u) && Unresolvable(w, table, u)
    ensures AdmitOne(w, at, u).pending == at.pending - {u}
  {
    ReadyMeansCompleted(at.state, w.deps[u]);
    LaunchEntry(w, table, at, u);
    forall d | d in w.deps[u] ensures IsDone(table, d) {
      assert Is(at, d, Completed) && Good(w, table, at, d);
    }
  }

  lemma FailingVisitEnds(w: Plan, b: Board, n: nat)
    requires Known(w) && n < |w.order| && AdmitTo(w, b, n + 1).failure.Some?
    ensures Admit(w, b) == AdmitOne(w, AdmitTo(w, b, n), w.order[n])
  {
    AdmitToEnd(w, b, n + 1);
    RunTheorems.AdmitStopsOnFailure(w, AdmitTo(w, b, n + 1), n + 1);
  }

  /** A pass that fails and leaves nothing pending came last to the step that fails. */
  lemma PassEndsOn(w: Plan, table: Table, b: Board) returns (n: nat)
    requires Valid(w) && Inv(w, table, b) && b.failure.None? && Admit(w, b).failure.Some? && Admit(w, b).pending == {}
    ensures n < |w.order| && EndsOn(w, table, AdmitTo(w, b, n), w.order[n])
  {
    AdmitToEnd(w, b, |w.order|);
    n := FailingVisit(w, b, |w.order|);
    AdmitToKeeps(w, table, b, n);
    assert w.order[n] in w.order;
    FailingVisitEnds(w, b, n);
    FailingStep(w, table, AdmitTo(w, b, n), w.order[n]);
  }

  lemma UnresolvableWaits(w: Plan, table: Table, b: Board, v: string)
    requires Inv(w, table, b) && b.failure.None? && Unresolvable(w, table, v)
    ensures v in b.pending
  {
    assert Good(w, table, b, v);
  }

  /** On such a board, every step has its dependencies completed. */
  lemma AllReady(w: Plan, rank: Graph.Ranking, table: Table, at: Board, u: string, z: string)
    requires Valid(w) && Graph.Ranks(w.deps, rank) && RouterFree(w) && EndsOn(w, table, at, u) && z in w.deps
    ensures DepsCompleted(w, at, z)
  {
    if z != u { StatusIsCompleted(w, rank, table, at, z); }
  }

  lemma ReadyBefore(w: Plan, rank: Graph.Ranking, table: Table, b: Board, n: nat, z: string, p: string)
    requires Valid(w) && Graph.Ranks(w.deps, rank) && RouterFree(w) && n < |w.order|
    requires EndsOn(w, table, AdmitTo(w, b, n), w.order[n]) && z in w.deps && p in w.deps[z]
    ensures Is(b, p, Completed)
  {
    AllReady(w, rank, table, AdmitTo(w, b, n), w.order[n], z);
    PassCompletesNothing(w, b, n, p);
  }

  lemma VisitedBefore(w: Plan, b: Board, n: nat, p: string)
    requires Known(w) && n <= |w.order| && p in b.pending && p !in AdmitTo(w, b, n).pending
    ensures p in w.order[..n]
  {
    if p !in w.order[..n] {
      forall k | 0 <= k < n ensures w.order[k] != p { assert w.order[..n][k] == w.order[k]; }
      SlotKept(w, b, 0, n, p);
    }
  }

  /** Whatever was pending besides the failing step was started before it in the same pass, and
      nothing depends on it. */
  lemma StartedBefore(w: Plan, rank: Graph.Ranking, table: Table, b: Board, n: nat, p: string)
    requires Valid(w) && Graph.Ranks(w.deps, rank) && RouterFree(w) && Inv(w, table, b) && b.failure.None?
    requires n < |w.order| && EndsOn(w, table, AdmitTo(w, b, n), w.order[n])
    requires p in b.pending && p in w.deps && p != w.order[n]
    ensures Sink(w, p) && p in w.order[..n]
  {
    StatusIsCompleted(w, rank, table, b, p);
    forall z | z in w.deps ensures p !in w.deps[z] {
      if p in w.deps[z] { ReadyBefore(w, rank, table, b, n, z, p); }
    }
    VisitedBefore(w, b, n, p);
  }

  /** In a first pass, no step has dependencies. */
  lemma FirstPassLast(w: Plan, rank: Graph.Ranking, table: Table, n: nat)
    requires Valid(w) && Graph.Ranks(w.deps, rank) && RouterFree(w) && n < |w.order|
    requires EndsOn(w, table, AdmitTo(w, Start(w), n), w.order[n])
    ensures LastOfAll(w, n)
  {
    var b := Start(w);
    forall id | id in w.deps ensures w.deps[id] == [] {
      if w.deps[id] != [] { ReadyBefore(w, rank, table, b, n, id, w.deps[id][0]); }
    }
    if n + 1 < |w.order| { NotVisitedYet(w, b, n, n + 1); }
  }

  lemma NotVisitedYet(w: Plan, b: Board, n: nat, m: nat)
    requires Known(w) && NoDup(w.order) && n < m < |w.order| && w.order[m] in b.pending
    ensures w.order[m] in AdmitTo(w, b, n).pending && w.order[m] != w.order[n]
  {
    SlotKept(w, b, 0, n, w.order[m]);
  }

  /** In a later pass, what the failing step waited for is the completion just received. */
  lemma LatestDep(w: Plan, table: Table, c: Board, e: Event, b: Board, n: nat)
    requires Valid(w) && Inv(w, table, c) && CanReceive(w, c, e) && n < |w.order|
    requires b == Received(w, Admit(w, c), e.id, e.interrupted) && b.failure.None?
    requires EndsOn(w, table, AdmitTo(w, b, n), w.order[n])
    ensures e.id in w.deps[w.order[n]]
  {
    var a, u := Admit(w, c), w.order[n];
    SlotKept(w, b, 0, n, u);
    var d := PendingWaited(w, c, n);
    PassCompletesNothing(w, b, n, d);
    if d != e.id {
      ReceivedCompletes(w, a, e.id, e.interrupted, d);
      AdmitCompletesNothing(w, c, d);
      CompletedStays(w, table, c, n, d);
    }
  }

  lemma ReceivedCompletes(w: Plan, a: Board, id: string, interrupted: bool, d: string)
    requires id in a.inflight && id in w.steps && d != id
    requires Is(Received(w, a, id, interrupted), d, Completed)
    ensures Is(a, d, Completed)
  {
    var c := Work(w, id, a.inflight[id], interrupted);
    SkipLosersAt(a.state[id := c.out.status], w.steps[id].routes, c.target, d);
  }

  lemma DependentWaits(w: Plan, rank: Graph.Ranking, table: Table, a: Board, id: string, p: string)
    requires Valid(w) && Graph.Ranks(w.deps, rank) && RouterFree(w) && Inv(w, table, a) && a.failure.None?
    requires id in w.deps && !Is(a, id, Completed) && p in w.deps && id in w.deps[p]
    ensures p in a.pending
  {
    StatusIsCompleted(w, rank, table, a, p);
  }

  lemma ReceivedFailure(w: Plan, a: Board, id: string, interrupted: bool)
    requires id in w.steps && id in a.inflight && Received(w, a, id, interrupted).failure.None?
    ensures a.failure.None?
  {
  }

  lemma LaterPassLast(w: Plan, rank: Graph.Ranking, table: Table, c: Board, e: Event, b: Board, n: nat)
    requires Valid(w) && Graph.Ranks(w.deps, rank) && RouterFree(w) && Inv(w, table, c) && CanReceive(w, c, e)
    requires b == Received(w, Admit(w, c), e.id, e.interrupted) && Inv(w, table, b) && b.failure.None?
    requires n < |w.order| && EndsOn(w, table, AdmitTo(w, b, n), w.order[n])
    ensures LastBehind(w, n, e.id)
  {
    AdmitKeeps(w, table, c, 0);
    LatestDep(w, table, c, e, b, n);
    ReceivedFailure(w, Admit(w, c), e.id, e.interrupted);
    ReceiveFrame(w, Admit(w, c), e.id, e.interrupted);
    InFlightOpen(w, table, Admit(w, c), e.id);
    forall p | p in w.deps && e.id in w.deps[p] && p != w.order[n] ensures Sink(w, p) && p in w.order[..n] {
      DependentWaits(w, rank, table, Admit(w, c), e.id, p);
      StartedBefore(w, rank, table, b, n, p);
    }
  }

  /** The step came last in the run, so it can. */
  lemma LastComesLast(w: Plan, rank: Graph.Ranking, table: Table, trace: seq<Event>, b: Board, n: nat)
    requires Valid(w) && Graph.Ranks(w.deps, rank) && RouterFree(w) && IsReference(w, table)
    requires BoardAfter(w, trace) == Some(b) && b.failure.None? && n < |w.order| && EndsOn(w, table, AdmitTo(w, b, n), w.order[n])
    ensures ComesLast(w, n)
  {
    if trace == [] {
      FirstPassLast(w, rank, table, n);
    } else {
      var m := |trace| - 1;
      RunTheorems.LastEvent(w, trace);
      RunKeeps(w, table, trace[..m]);
      RunKeeps(w, table, trace);
      LaterPassLast(w, rank, table, BoardAfter(w, trace[..m]).value, trace[m], b, n);
    }
  }

  /** A pass that leaves nothing pending has met at most one unresolvable step, last of all. */
  lemma EmptyPassCanWait(w: Plan, rank: Graph.Ranking, table: Table, trace: seq<Event>, b: Board)
    requires Valid(w) && Graph.Ranks(w.deps, rank) && RouterFree(w) && IsReference(w, table)
    requires BoardAfter(w, trace) == Some(b) && b.pending != {} && Admit(w, b).pending == {}
    ensures FailureCanWait(w, table)
  {
    RunKeeps(w, table, trace);
    if b.failure.Some? { RunTheorems.AdmitStopsOnFailure(w, b, 0); }
    if Admit(w, b).failure.None? {
      forall v ensures !Unresolvable(w, table, v) {
        if Unresolvable(w, table, v) { UnresolvableWaits(w, table, Admit(w, b), v); }
      }
    } else {
      var n := PassEndsOn(w, table, b);
      forall v | Unresolvable(w, table, v) ensures v == w.order[n] { UnresolvableWaits(w, table, AdmitTo(w, b, n), v); }
      LastComesLast(w, rank, table, trace, b, n);
      assert OnlyUnresolvable(w, table, n);
    }
  }

  lemma InFlightIsStartedSink(w: Plan, rank: Graph.Ranking, table: Table, a: Board, x: string)
    requires Valid(w) && Graph.Ranks(w.deps, rank) && RouterFree(w) && Inv(w, table, a) && a.pending == {} && x in a.inflight
    ensures StartedSink(w, table, x)
  {
    InFlightIsLiveSink(w, table, a, x);
    LiveSinksAreSinks(w, rank, table);
    assert Good(w, table, a, x);
  }

  lemma LossShows(w: Plan, rank: Graph.Ranking, table: Table, trace: seq<Event>)
    requires Valid(w) && Graph.Ranks(w.deps, rank) && RouterFree(w) && IsReference(w, table)
    requires BoardAfter(w, trace).Some? && LeavesInFlight(w, BoardAfter(w, trace).value)
    ensures TwoStartedSinks(w, table) && FailureCanWait(w, table)
  {
    var before, a, x := LossyPass(w, table, trace);
    var y :| y in BoardAfter(w, trace).value.inflight;
    InFlightIsStartedSink(w, rank, table, a, x);
    InFlightIsStartedSink(w, rank, table, a, y);
    EmptyPassCanWait(w, rank, table, before, BoardAfter(w, before).value);
  }

  // ---------------------------------------------------- what loses: the pass that fails

  lemma {:induction false} CompletedMeansReady(state: map<string, Status>, deps: seq<string>)
    requires forall d :: d in deps ==> d in state && state[d] == Completed
    ensures DepStatus(state, deps) == Ready
  {
    if deps != [] {
      assert deps[0] in deps;
      CompletedMeansReady(state, deps[1..]);
    }
  }

  /** The visit of the last pending step fails, and leaves nothing pending. */
  lemma LastFails(w: Plan, table: Table, at: Board, u: string)
    requires Valid(w) && EndsOn(w, table, at, u)
    ensures AdmitOne(w, at, u).failure.Some? && AdmitOne(w, at, u).pending == {}
  {
    assert Good(w, table, at, u);
    CompletedMeansReady(at.state, w.deps[u]);
    LaunchEntry(w, table, at, u);
  }

  /** A step without a status before such a pass is in flight after it. */
  lemma StartedByThen(w: Plan, rank: Graph.Ranking, table: Table, b: Board, n: nat, x: string)
    requires Valid(w) && Graph.Ranks(w.deps, rank) && RouterFree(w) && n < |w.order|
    requires EndsOn(w, table, AdmitTo(w, b, n), w.order[n]) && x in w.deps && x !in b.state && x != w.order[n]
    ensures x in Admit(w, b).inflight
  {
    var at, u := AdmitTo(w, b, n), w.order[n];
    StatusIsCompleted(w, rank, table, at, x);
    if x in at.state { PassCompletesNothing(w, b, n, x); }
    LastFails(w, table, at, u);
    FailingVisitEnds(w, b, n);
    AdmitOneFrame(w, at, u, x);
  }

  /** After such a pass, receiving one of two sinks loses the other. */
  lemma FailedPassLoses(w: Plan, rank: Graph.Ranking, table: Table, trace: seq<Event>, b: Board, n: nat, x: string, y: string)
    requires Valid(w) && Graph.Ranks(w.deps, rank) && RouterFree(w) && n < |w.order|
    requires BoardAfter(w, trace) == Some(b) && b.pending != {} && EndsOn(w, table, AdmitTo(w, b, n), w.order[n])
    requires x in w.deps && x !in b.state && x != w.order[n] && y in w.deps && y !in b.state && y != w.order[n] && x != y
    ensures var next := BoardAfter(w, trace + [Event(x, false)]); next.Some? && LeavesInFlight(w, next.value)
  {
    StartedByThen(w, rank, table, b, n, x);
    StartedByThen(w, rank, table, b, n, y);
    LastFails(w, table, AdmitTo(w, b, n), w.order[n]);
    FailingVisitEnds(w, b, n);
    TraceStep(w, trace, b, Event(x, false));
    ReceiveFrame(w, Admit(w, b), x, false);
    assert y in Admit(w, b).inflight - {x};
  }

  // ----------------------------------------------------------------- how to get there

  lemma {:induction false} NoFailureBefore(w: Plan, table: Table, b: Board, n: nat, k: nat)
    requires Valid(w) && Inv(w, table, b) && b.failure.None? && k <= n < |w.order| && OnlyUnresolvable(w, table, n)
    ensures AdmitTo(w, b, k).failure.None?
  {
    if k > 0 {
      NoFailureBefore(w, table, b, n, k - 1);
      AdmitToKeeps(w, table, b, k - 1);
      assert w.order[k-1] in w.order;
      if AdmitTo(w, b, k).failure.Some? { FailingStep(w, table, AdmitTo(w, b, k - 1), w.order[k-1]); }
    }
  }

  /** Everything pending is ready, and comes before the n-th step or is it. */
  ghost predicate ReadyUpTo(w: Plan, b: Board, n: nat)
    requires n < |w.order|
  {
    forall p :: p in b.pending ==> p in w.deps && DepsCompleted(w, b, p) && (p == w.order[n] || p in w.order[..n])
  }

  lemma ReadyStarts(w: Plan, rank: Graph.Ranking, table: Table, at: Board, p: string)
    requires Valid(w) && Graph.Ranks(w.deps, rank) && RouterFree(w) && Inv(w, table, at) && at.failure.None?
    requires p in w.deps && DepsCompleted(w, at, p)
    ensures p !in AdmitOne(w, at, p).pending
  {
    if p in at.pending {
      StatusIsCompleted(w, rank, table, at, p);
      CompletedMeansReady(at.state, w.deps[p]);
    }
  }

  lemma ReadyIsVisited(w: Plan, rank: Graph.Ranking, table: Table, b: Board, n: nat, m: nat)
    requires Valid(w) && Graph.Ranks(w.deps, rank) && RouterFree(w) && Inv(w, table, b) && b.failure.None?
    requires m < n < |w.order| && OnlyUnresolvable(w, table, n) && w.order[m] in w.deps && DepsCompleted(w, b, w.order[m])
    ensures w.order[m] !in AdmitTo(w, b, n).pending
  {
    var p, at := w.order[m], AdmitTo(w, b, m);
    AdmitToKeeps(w, table, b, m);
    NoFailureBefore(w, table, b, n, m);
    forall d | d in w.deps[p] ensures Is(at, d, Completed) { CompletedStays(w, table, b, m, d); }
    ReadyStarts(w, rank, table, at, p);
    SlotKept(w, b, m + 1, n, p);
  }

  lemma {:induction false} PendingShrinks(w: Plan, b: Board, k: nat)
    requires Known(w) && k <= |w.order|
    ensures AdmitTo(w, b, k).pending <= b.pending
  {
    if k > 0 { PendingShrinks(w, b, k - 1); }
  }

  /** From such a board the pass comes last to the n-th step. */
  lemma ReachesLast(w: Plan, rank: Graph.Ranking, table: Table, b: Board, n: nat)
    requires Valid(w) && Graph.Ranks(w.deps, rank) && RouterFree(w) && Inv(w, table, b) && b.failure.None?
    requires n < |w.order| && OnlyUnresolvable(w, table, n) && ReadyUpTo(w, b, n)
    ensures EndsOn(w, table, AdmitTo(w, b, n), w.order[n])
  {
    var u, at := w.order[n], AdmitTo(w, b, n);
    AdmitToKeeps(w, table, b, n);
    NoFailureBefore(w, table, b, n, n);
    UnresolvableWaits(w, table, b, u);
    UnresolvableWaits(w, table, at, u);
    forall d | d in w.deps[u] ensures Is(at, d, Completed) { CompletedStays(w, table, b, n, d); }
    PendingShrinks(w, b, n);
    forall p | p in at.pending ensures p == u {
      if p != u {
        var m :| 0 <= m < n && w.order[..n][m] == p;
        ReadyIsVisited(w, rank, table, b, n, m);
      }
    }
  }

  /** If nothing has dependencies, the first pass does. */
  lemma FirstPassLoses(w: Plan, rank: Graph.Ranking, table: Table, n: nat, x: string, y: string) returns (lossy: seq<Event>)
    requires Valid(w) && Graph.Ranks(w.deps, rank) && RouterFree(w) && IsReference(w, table)
    requires n < |w.order| && OnlyUnresolvable(w, table, n) && LastOfAll(w, n)
    requires x != y && StartedSink(w, table, x) && StartedSink(w, table, y)
    ensures BoardAfter(w, lossy).Some? && LeavesInFlight(w, BoardAfter(w, lossy).value)
  {
    var b := Start(w);
    assert BoardAfter(w, []) == Some(b);
    StartKeeps(w, table);
    forall p | p in b.pending ensures p == w.order[n] || p in w.order[..n] {
      var j := IndexOfStep(w, p);
      if j < n { assert w.order[..n][j] == p; }
    }
    UnresolvableWaits(w, table, b, w.order[n]);
    ReachesLast(w, rank, table, b, n);
    FailedPassLoses(w, rank, table, [], b, n, x, y);
    lossy := [] + [Event(x, false)];
  }

  // -------------------------------------------------- everything but one dependency

  /** A run in which nothing has failed and none of the three has completed or failed. */
  ghost predicate Open(w: Plan, table: Table, b: Board, d: string, x: string, y: string) {
    Inv(w, table, b) && b.failure.None? && d !in b.state && x !in b.state && y !in b.state
  }

  /** What the run is steered around: d, which the unresolvable step waits for, and two sinks. */
  ghost predicate Steered(w: Plan, table: Table, n: nat, d: string, x: string, y: string) {
    && n < |w.order| && OnlyUnresolvable(w, table, n) && LastBehind(w, n, d) && d in w.deps
    && x != y && StartedSink(w, table, x) && StartedSink(w, table, y)
    && forall h :: !HaltsInside(w, table, h)
  }

  lemma SteeredPassFine(w: Plan, table: Table, b: Board, n: nat, d: string, x: string, y: string)
    requires Valid(w) && Steered(w, table, n, d, x, y) && Open(w, table, b, d, x, y)
    ensures Admit(w, b).failure.None?
  {
    if Admit(w, b).failure.Some? {
      AdmitToEnd(w, b, |w.order|);
      var m := FailingVisit(w, b, |w.order|);
      AdmitToKeeps(w, table, b, m);
      assert w.order[m] in w.order;
      FailingStep(w, table, AdmitTo(w, b, m), w.order[m]);
      PassCompletesNothing(w, b, m, d);
    }
  }

  lemma PassStaysOpen(w: Plan, rank: Graph.Ranking, table: Table, b: Board, n: nat, d: string, x: string, y: string)
    requires Valid(w) && Graph.Ranks(w.deps, rank) && RouterFree(w) && Steered(w, table, n, d, x, y) && Open(w, table, b, d, x, y)
    ensures Open(w, table, Admit(w, b), d, x, y)
  {
    AdmitKeeps(w, table, b, 0);
    SteeredPassFine(w, table, b, n, d, x, y);
    forall z ensures !IsSkip(table, z) { NoSkips(w, rank, table, z); }
    PassAddsNoStatus(w, table, b, d);
    PassAddsNoStatus(w, table, b, x);
    PassAddsNoStatus(w, table, b, y);
  }

  lemma InnerIsDone(w: Plan, rank: Graph.Ranking, table: Table, e: string)
    requires Valid(w) && Graph.Ranks(w.deps, rank) && RouterFree(w) && IsReference(w, table)
    requires e in w.deps && !Sink(w, e) && !HaltsInside(w, table, e)
    ensures IsDone(table, e)
  {
    NoSkips(w, rank, table, e);
  }

  lemma ReceiveStaysOpen(w: Plan, rank: Graph.Ranking, table: Table, a: Board, e: string, n: nat, d: string, x: string, y: string)
    requires Valid(w) && Graph.Ranks(w.deps, rank) && RouterFree(w) && Steered(w, table, n, d, x, y) && Open(w, table, a, d, x, y)
    requires e in a.inflight && e in w.deps && !Sink(w, e) && e != d
    ensures Open(w, table, Received(w, a, e, false), d, x, y)
  {
    InnerIsDone(w, rank, table, e);
    ReceiveKeeps(w, table, a, e, false);
    DoneReceived(w, table, a, e);
    forall z ensures !IsSkip(table, z) { NoSkips(w, rank, table, z); }
    ReceiveAddsNoStatus(w, table, a, e, d);
    ReceiveAddsNoStatus(w, table, a, e, x);
    ReceiveAddsNoStatus(w, table, a, e, y);
  }

  lemma StepStaysOpen(w: Plan, rank: Graph.Ranking, table: Table, trace: seq<Event>, e: string, n: nat, d: string, x: string, y: string)
    requires Valid(w) && Graph.Ranks(w.deps, rank) && RouterFree(w) && Steered(w, table, n, d, x, y) && BoardAfter(w, trace).Some?
    requires Open(w, table, BoardAfter(w, trace).value, d, x, y)
    requires e in Admit(w, BoardAfter(w, trace).value).inflight && e in w.deps && !Sink(w, e) && e != d
    ensures var next := BoardAfter(w, trace + [Event(e, false)]);
            && next.Some? && Open(w, table, next.value, d, x, y)
            && Load(next.value) < Load(BoardAfter(w, trace).value)
  {
    var b := BoardAfter(w, trace).value;
    UnresolvableWaits(w, table, b, w.order[n]);
    PassStaysOpen(w, rank, table, b, n, d, x, y);
    TraceStep(w, trace, b, Event(e, false));
    IterationProgress(w, b, Event(e, false));
    ReceiveStaysOpen(w, rank, table, Admit(w, b), e, n, d, x, y);
  }

  /** A step pending after a pass waits for one that has not completed by its end. */
  lemma WaitsForOpen(w: Plan, rank: Graph.Ranking, table: Table, b: Board, p: string) returns (q: string)
    requires Valid(w) && Graph.Ranks(w.deps, rank) && Inv(w, table, b) && Admit(w, b).failure.None?
    requires p in w.deps && p in Admit(w, b).pending
    ensures q in w.deps[p] && q in w.deps && rank[q] < rank[p] && !Is(Admit(w, b), q, Completed)
  {
    var i := IndexOfStep(w, p);
    q := PendingWaited(w, b, i);
    if Is(Admit(w, b), q, Completed) {
      AdmitCompletesNothing(w, b, q);
      CompletedStays(w, table, b, i, q);
    }
  }

  /** With no other step in flight that has dependents, all of those have completed but d. */
  lemma {:induction false} InnerCompleted(w: Plan, rank: Graph.Ranking, table: Table, b: Board, n: nat, d: string, x: string, y: string, q: string)
    requires Valid(w) && Graph.Ranks(w.deps, rank) && RouterFree(w) && Steered(w, table, n, d, x, y) && Inv(w, table, b)
    requires Open(w, table, Admit(w, b), d, x, y)
    requires forall e :: e in Admit(w, b).inflight && e in w.deps && !Sink(w, e) ==> e == d
    requires q in w.deps && !Sink(w, q)
    ensures if q == d then d in Admit(w, b).inflight else Is(Admit(w, b), q, Completed)
    decreases rank[q]
  {
    StatusIsCompleted(w, rank, table, Admit(w, b), q);
    if q in Admit(w, b).pending {
      var p := WaitsForOpen(w, rank, table, b, q);
      InnerCompleted(w, rank, table, b, n, d, x, y, p);
      InnerNotBehind(w, table, n, d, x, y, q);
    }
  }

  /** Only steps without dependents wait for d. */
  lemma InnerNotBehind(w: Plan, table: Table, n: nat, d: string, x: string, y: string, q: string)
    requires Steered(w, table, n, d, x, y) && q in w.deps && !Sink(w, q)
    ensures d !in w.deps[q]
  {
    assert !HaltsInside(w, table, w.order[n]);
  }

  /** Receiving d then makes everything pending ready. */
  lemma ReceiveD(w: Plan, rank: Graph.Ranking, table: Table, c: Board, b: Board, n: nat, d: string, x: string, y: string)
    requires Valid(w) && Graph.Ranks(w.deps, rank) && RouterFree(w) && Steered(w, table, n, d, x, y) && Inv(w, table, c)
    requires Open(w, table, Admit(w, c), d, x, y)
    requires forall e :: e in Admit(w, c).inflight && e in w.deps && !Sink(w, e) ==> e == d
    requires d in Admit(w, c).inflight && b == Received(w, Admit(w, c), d, false)
    ensures Inv(w, table, b) && b.failure.None? && x !in b.state && y !in b.state && ReadyUpTo(w, b, n)
  {
    assert !Sink(w, d);
    ReceiveOpens(w, rank, table, Admit(w, c), b, n, d, x, y);
    forall q | q in w.deps && !Sink(w, q) ensures Is(b, q, Completed) {
      InnerCompleted(w, rank, table, c, n, d, x, y, q);
      CompletedAfter(w, rank, table, Admit(w, c), b, d, q);
    }
    forall p | p in b.pending ensures p in w.deps && DepsCompleted(w, b, p) && (p == w.order[n] || p in w.order[..n]) {
      WaitsForD(w, rank, table, c, n, d, x, y, p);
      forall q | q in w.deps[p] ensures Is(b, q, Completed) { assert q in w.deps && !Sink(w, q); }
    }
  }

  lemma ReceiveOpens(w: Plan, rank: Graph.Ranking, table: Table, a: Board, b: Board, n: nat, d: string, x: string, y: string)
    requires Valid(w) && Graph.Ranks(w.deps, rank) && RouterFree(w) && Steered(w, table, n, d, x, y) && Open(w, table, a, d, x, y)
    requires !Sink(w, d) && d in a.inflight && b == Received(w, a, d, false)
    ensures Inv(w, table, b) && b.failure.None? && x !in b.state && y !in b.state && b.pending == a.pending
  {
    InnerIsDone(w, rank, table, d);
    ReceiveKeeps(w, table, a, d, false);
    DoneReceived(w, table, a, d);
    ReceiveFrame(w, a, d, false);
    forall z ensures !IsSkip(table, z) { NoSkips(w, rank, table, z); }
    ReceiveAddsNoStatus(w, table, a, d, x);
    ReceiveAddsNoStatus(w, table, a, d, y);
  }

  lemma CompletedAfter(w: Plan, rank: Graph.Ranking, table: Table, a: Board, b: Board, d: string, q: string)
    requires Valid(w) && Graph.Ranks(w.deps, rank) && RouterFree(w) && Inv(w, table, a) && Inv(w, table, b) && b.failure.None?
    requires d in a.inflight && d in w.steps && b == Received(w, a, d, false) && q in w.deps && (q == d || q in a.state)
    ensures Is(b, q, Completed)
  {
    Clearing.ReceivedMarks(w, table, a, d, false, q);
    StatusIsCompleted(w, rank, table, b, q);
  }

  /** What is still pending waits for d. */
  lemma WaitsForD(w: Plan, rank: Graph.Ranking, table: Table, c: Board, n: nat, d: string, x: string, y: string, p: string)
    requires Valid(w) && Graph.Ranks(w.deps, rank) && RouterFree(w) && Steered(w, table, n, d, x, y) && Inv(w, table, c)
    requires Open(w, table, Admit(w, c), d, x, y) && p in Admit(w, c).pending
    requires forall e :: e in Admit(w, c).inflight && e in w.deps && !Sink(w, e) ==> e == d
    ensures p in w.deps && (p == w.order[n] || p in w.order[..n])
  {
    var q := WaitsForOpen(w, rank, table, c, p);
    assert !Sink(w, q);
    InnerCompleted(w, rank, table, c, n, d, x, y, q);
  }

  /** With everything else that has dependents received, receiving d and then x loses y. */
  lemma SteeredEnd(w: Plan, rank: Graph.Ranking, table: Table, trace: seq<Event>, n: nat, d: string, x: string, y: string)
    returns (lossy: seq<Event>)
    requires Valid(w) && Graph.Ranks(w.deps, rank) && RouterFree(w) && Steered(w, table, n, d, x, y) && BoardAfter(w, trace).Some?
    requires Open(w, table, BoardAfter(w, trace).value, d, x, y)
    requires forall e :: e in Admit(w, BoardAfter(w, trace).value).inflight && e in w.deps && !Sink(w, e) ==> e == d
    ensures BoardAfter(w, lossy).Some? && LeavesInFlight(w, BoardAfter(w, lossy).value)
  {
    var c := BoardAfter(w, trace).value;
    UnresolvableWaits(w, table, c, w.order[n]);
    PassStaysOpen(w, rank, table, c, n, d, x, y);
    assert !Sink(w, d);
    InnerCompleted(w, rank, table, c, n, d, x, y, d);
    TraceStep(w, trace, c, Event(d, false));
    var b := Received(w, Admit(w, c), d, false);
    ReceiveD(w, rank, table, c, b, n, d, x, y);
    UnresolvableWaits(w, table, b, w.order[n]);
    ReachesLast(w, rank, table, b, n);
    FailedPassLoses(w, rank, table, trace + [Event(d, false)], b, n, x, y);
    lossy := trace + [Event(d, false)] + [Event(x, false)];
  }

  lemma {:induction false} SteeredLoses(w: Plan, rank: Graph.Ranking, table: Table, trace: seq<Event>, n: nat, d: string, x: string, y: string)
    returns (lossy: seq<Event>)
    requires Valid(w) && Graph.Ranks(w.deps, rank) && RouterFree(w) && Steered(w, table, n, d, x, y) && BoardAfter(w, trace).Some?
    requires Open(w, table, BoardAfter(w, trace).value, d, x, y)
    ensures BoardAfter(w, lossy).Some? && LeavesInFlight(w, BoardAfter(w, lossy).value)
    decreases Load(BoardAfter(w, trace).value)
  {
    if e :| e in Admit(w, BoardAfter(w, trace).value).inflight && e in w.deps && !Sink(w, e) && e != d {
      StepStaysOpen(w, rank, table, trace, e, n, d, x, y);
      lossy := SteeredLoses(w, rank, table, trace + [Event(e, false)], n, d, x, y);
    } else {
      lossy := SteeredEnd(w, rank, table, trace, n, d, x, y);
    }
  }

  // ------------------------------------------------------------------ the condition

  lemma WaitingLoses(w: Plan, rank: Graph.Ranking, table: Table, n: nat, x: string, y: string) returns (lossy: seq<Event>)
    requires Valid(w) && Graph.Ranks(w.deps, rank) && RouterFree(w) && IsReference(w, table)
    requires n < |w.order| && OnlyUnresolvable(w, table, n) && ComesLast(w, n)
    requires x != y && StartedSink(w, table, x) && StartedSink(w, table, y) && forall h :: !HaltsInside(w, table, h)
    ensures BoardAfter(w, lossy).Some? && LeavesInFlight(w, BoardAfter(w, lossy).value)
  {
    if LastOfAll(w, n) {
      lossy := FirstPassLoses(w, rank, table, n, x, y);
    } else {
      var d :| LastBehind(w, n, d);
      assert BoardAfter(w, []) == Some(Start(w));
      StartKeeps(w, table);
      lossy := SteeredLoses(w, rank, table, [], n, d, x, y);
    }
  }

  lemma NoneUnresolvable(w: Plan, table: Table)
    requires forall v :: !Unresolvable(w, table, v)
    ensures Resolves(w, table)
  {
    forall id | id in table && id in w.deps && AllDone(w, table, id) ensures table[id] != Entry(Halted, None) {
      assert !Unresolvable(w, table, id);
    }
  }

  lemma SinksArePair(w: Plan, rank: Graph.Ranking, table: Table, x: string, y: string)
    requires Valid(w) && Graph.Ranks(w.deps, rank) && RouterFree(w) && IsReference(w, table)
    requires x != y && Sink(w, x) && Sink(w, y) && forall h :: !HaltsInside(w, table, h)
    ensures LossyPair(w, rank, table, x, y) && !InnerHalt(w, table) && ForwardSafe(w, rank)
  {
    LiveSinksAreSinks(w, rank, table);
    forall h | h in table && table[h].verdict.Halted? ensures Sink(w, h) { assert !HaltsInside(w, table, h); }
  }

  lemma ResolvingLoses(w: Plan, rank: Graph.Ranking, table: Table, x: string, y: string) returns (lossy: seq<Event>)
    requires Valid(w) && Graph.Ranks(w.deps, rank) && RouterFree(w) && IsReference(w, table)
    requires forall v :: !Unresolvable(w, table, v)
    requires x != y && Sink(w, x) && Sink(w, y) && forall h :: !HaltsInside(w, table, h)
    ensures BoardAfter(w, lossy).Some? && LeavesInFlight(w, BoardAfter(w, lossy).value)
  {
    SinksArePair(w, rank, table, x, y);
    NoneUnresolvable(w, table);
    lossy := FirstLoss(w, rank, table, x, y);
  }

  /** Without routers, exactly: no run loses a completion if and only if some step with dependents
      never completes, or fewer than two steps without dependents are ever started, or some input fails
      to resolve that cannot be left to the end of a run. */
  lemma RouterFreeDrainsIff(w: Plan, rank: Graph.Ranking, table: Table)
    requires Valid(w) && Graph.Ranks(w.deps, rank) && RouterFree(w) && IsReference(w, table)
    ensures AllRunsDrain(w) <==>
              (exists h :: HaltsInside(w, table, h)) || !TwoStartedSinks(w, table) || !FailureCanWait(w, table)
  {
    if h :| HaltsInside(w, table, h) {
      LiveSinksAreSinks(w, rank, table);
      forall trace | BoardAfter(w, trace).Some? ensures !LeavesInFlight(w, BoardAfter(w, trace).value) {
        InnerHaltDrains(w, table, trace);
      }
    } else if TwoStartedSinks(w, table) && FailureCanWait(w, table) {
      var x, y :| x != y && StartedSink(w, table, x) && StartedSink(w, table, y);
      if n: nat :| n < |w.order| && OnlyUnresolvable(w, table, n) && ComesLast(w, n) {
        var lossy := WaitingLoses(w, rank, table, n, x, y);
      } else {
        var lossy := ResolvingLoses(w, rank, table, x, y);
      }
    } else {
      forall trace | BoardAfter(w, trace).Some? ensures !LeavesInFlight(w, BoardAfter(w, trace).value) {
        if LeavesInFlight(w, BoardAfter(w, trace).value) { LossShows(w, rank, table, trace); }
      }
    }
  }
}
