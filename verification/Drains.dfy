/** When the owner loop leaves with steps in flight, whose completions are then lost. */
module Drains {
  import opened Prelude
  import opened Scheduler
  import opened Reference
  import opened Runs
  import opened Progress
  import opened Clearing
  import Graph
  import RunTheorems

  // ------------------------------------------------------------- what can be lost

  /** The step runs, and everything that depends on it is skipped. */
  ghost predicate LiveSink(w: Plan, table: Table, id: string) {
    && id in w.deps && id in table && !IsSkip(table, id)
    && forall z :: z in w.deps && id in w.deps[z] ==> IsSkip(table, z)
  }

  ghost predicate AtMostOneLiveSink(w: Plan, table: Table) {
    forall x, y :: LiveSink(w, table, x) && LiveSink(w, table, y) ==> x == y
  }

  ghost predicate LeavesInFlight(w: Plan, b: Board)
    requires Known(w)
  {
    ExitFrom(w, b).Stop? && ExitFrom(w, b).board.inflight != map[]
  }

  /** No run leaves the loop while a step is in flight, so no completion is lost. */
  ghost predicate AllRunsDrain(w: Plan)
    requires Known(w)
  {
    forall trace :: BoardAfter(w, trace).Some? ==> !LeavesInFlight(w, BoardAfter(w, trace).value)
  }

  /** With nothing pending, whatever is in flight is a live sink. */
  lemma InFlightIsLiveSink(w: Plan, table: Table, a: Board, x: string)
    requires Inv(w, table, a) && a.pending == {} && x in a.inflight
    ensures LiveSink(w, table, x)
  {
    assert Good(w, table, a, x) && !Is(a, x, Completed);
    forall z | z in w.deps && x in w.deps[z] ensures IsSkip(table, z) {
      assert Good(w, table, a, z);
    }
  }

  /** The pass before a run leaves with work in flight ended with nothing pending. */
  lemma LossyPass(w: Plan, table: Table, trace: seq<Event>) returns (before: seq<Event>, a: Board, x: string)
    requires Valid(w) && IsReference(w, table) && BoardAfter(w, trace).Some?
    requires LeavesInFlight(w, BoardAfter(w, trace).value)
    ensures var b := BoardAfter(w, trace).value;
            && BoardAfter(w, before).Some? && BoardAfter(w, before).value.pending != {} && a == Admit(w, BoardAfter(w, before).value)
            && Inv(w, table, a) && Inv(w, table, b) && a.pending == {} && b.pending == {}
            && x in a.inflight && b.inflight == a.inflight - {x}
  {
    var n := |trace| - 1;
    GuardExit(w, BoardAfter(w, trace).value);
    RunTheorems.LastEvent(w, trace);
    before, x := trace[..n], trace[n].id;
    a := Admit(w, BoardAfter(w, before).value);
    RunKeeps(w, table, trace);
    RunKeeps(w, table, before);
    ReceiveFrame(w, a, x, trace[n].interrupted);
  }

  lemma GuardExit(w: Plan, b: Board)
    requires Known(w)
    ensures LeavesInFlight(w, b) <==> b.pending == {} && b.inflight != map[]
  {
  }

  lemma ReceiveFrame(w: Plan, a: Board, x: string, interrupted: bool)
    requires x in w.steps && x in a.inflight
    ensures var b := Received(w, a, x, interrupted); b.pending == a.pending && b.inflight == a.inflight - {x}
  {
  }

  ghost predicate ResultsHaveStatus(b: Board) {
    b.results.Keys <= b.state.Keys
  }

  lemma AdmitOneResults(w: Plan, b: Board, id: string)
    requires id in w.steps && id in w.deps && ResultsHaveStatus(b)
    ensures ResultsHaveStatus(AdmitOne(w, b, id))
  {
  }

  lemma {:induction false} AdmitResults(w: Plan, b: Board, i: nat)
    requires Known(w) && i <= |w.order| && ResultsHaveStatus(b)
    ensures ResultsHaveStatus(AdmitFrom(w, b, i))
    decreases |w.order| - i
  {
    if i < |w.order| {
      AdmitOneResults(w, b, w.order[i]);
      AdmitResults(w, AdmitOne(w, b, w.order[i]), i + 1);
    }
  }

  lemma ReceivedResults(w: Plan, a: Board, id: string, interrupted: bool)
    requires id in w.steps && id in a.inflight && ResultsHaveStatus(a)
    ensures ResultsHaveStatus(Received(w, a, id, interrupted))
  {
    var c := Work(w, id, a.inflight[id], interrupted);
    var state := a.state[id := c.out.status];
    forall x | x in state ensures x in SkipLosers(state, w.steps[id].routes, c.target) {
      SkipLosersAt(state, w.steps[id].routes, c.target, x);
    }
  }

  lemma {:induction false} RunResults(w: Plan, trace: seq<Event>)
    requires Known(w) && BoardAfter(w, trace).Some?
    ensures ResultsHaveStatus(BoardAfter(w, trace).value)
  {
    if trace != [] {
      var n := |trace| - 1;
      RunResults(w, trace[..n]);
      var b := BoardAfter(w, trace[..n]).value;
      AdmitResults(w, b, 0);
      ReceivedResults(w, Admit(w, b), trace[n].id, trace[n].interrupted);
    }
  }

  /** The step was started and will complete or fail, yet the run reports it as SKIPPED. */
  ghost predicate Lost(w: Plan, table: Table, b: Board, x: string) {
    && LiveSink(w, table, x) && x in b.launched
    && forall i :: 0 <= i < |w.order| && w.order[i] == x ==> i < |Finished(w, b).steps| && Finished(w, b).steps[i] == SkippedOutcome(x)
  }

  lemma InFlightIsLost(w: Plan, table: Table, a: Board, b: Board, x: string)
    requires Inv(w, table, a) && a.pending == {} && x in a.inflight && Inv(w, table, b) && x in b.inflight && ResultsHaveStatus(b)
    ensures Lost(w, table, b, x)
  {
    InFlightIsLiveSink(w, table, a, x);
    assert Good(w, table, b, x);
    assert x !in b.results;
  }

  /** However a run leaves the loop, either nothing is in flight, or the loop head found nothing
      pending and every step still in flight is a lost live sink. */
  lemma OnlyGuardLosesWork(w: Plan, table: Table, trace: seq<Event>)
    requires Valid(w) && IsReference(w, table) && BoardAfter(w, trace).Some?
    ensures match ExitFrom(w, BoardAfter(w, trace).value)
            case Continue => true
            case Stalled(a) => a.inflight == map[]
            case Stop(a) =>
              a.inflight == map[]
              || (a == BoardAfter(w, trace).value && a.pending == {} && forall x :: x in a.inflight ==> Lost(w, table, a, x))
  {
    var b := BoardAfter(w, trace).value;
    if LeavesInFlight(w, b) {
      var before, a, e := LossyPass(w, table, trace);
      RunResults(w, trace);
      forall x | x in b.inflight ensures Lost(w, table, b, x) { InFlightIsLost(w, table, a, b, x); }
    }
  }

  // ---------------------------------------------------------------- when nothing is

  /** A pipeline whose reference has at most one live sink never loses a completion: routers and
      failures included. */
  lemma OneLiveSinkDrains(w: Plan, table: Table, trace: seq<Event>)
    requires Valid(w) && IsReference(w, table) && AtMostOneLiveSink(w, table) && BoardAfter(w, trace).Some?
    ensures !LeavesInFlight(w, BoardAfter(w, trace).value)
  {
    var b := BoardAfter(w, trace).value;
    if LeavesInFlight(w, b) {
      var before, a, e := LossyPass(w, table, trace);
      var x :| x in b.inflight;
      InFlightIsLiveSink(w, table, a, x);
      InFlightIsLiveSink(w, table, a, e);
    }
  }

  /** A step that never completes has a dependent that is not skipped. */
  ghost predicate Blocks(w: Plan, table: Table, h: string, z: string) {
    h in table && table[h].verdict.Halted? && z in w.deps && h in w.deps[z] && !IsSkip(table, z)
  }

  ghost predicate InnerHalt(w: Plan, table: Table) {
    exists h, z :: Blocks(w, table, h, z)
  }

  /** Nor does one in which such a step exists: its dependent stays pending for ever. */
  lemma InnerHaltDrains(w: Plan, table: Table, trace: seq<Event>)
    requires Valid(w) && IsReference(w, table) && InnerHalt(w, table) && BoardAfter(w, trace).Some?
    ensures !LeavesInFlight(w, BoardAfter(w, trace).value)
  {
    var h, z :| Blocks(w, table, h, z);
    RunKeeps(w, table, trace);
    var b := BoardAfter(w, trace).value;
    assert Good(w, table, b, z) && Good(w, table, b, h);
    assert !Is(b, h, Completed);
    assert z in b.pending;
  }

  // ------------------------------------------------------------------- when some is

  /** No step whose dependencies all complete has an input that fails to resolve. */
  ghost predicate Resolves(w: Plan, table: Table) {
    forall id :: id in table && id in w.deps && AllDone(w, table, id) ==> table[id] != Entry(Halted, None)
  }

  lemma AdmitOneNoFailure(w: Plan, table: Table, b: Board, id: string)
    requires Valid(w) && Inv(w, table, b) && Resolves(w, table) && b.failure.None? && id in w.deps
    ensures AdmitOne(w, b, id).failure.None?
  {
    if id in b.pending && !Is(b, id, Skipped) && DepStatus(b.state, w.deps[id]) == Ready {
      ReadyMeansCompleted(b.state, w.deps[id]);
      forall d | d in w.deps[id] ensures IsDone(table, d) {
        assert Is(b, d, Completed) && Good(w, table, b, d);
      }
      LaunchEntry(w, table, b, id);
    }
  }

  lemma {:induction false} AdmitNoFailure(w: Plan, table: Table, b: Board, i: nat)
    requires Valid(w) && Inv(w, table, b) && Resolves(w, table) && b.failure.None? && i <= |w.order|
    ensures AdmitFrom(w, b, i).failure.None?
    decreases |w.order| - i
  {
    if i < |w.order| {
      var id := w.order[i];
      assert id in w.order;
      AdmitOneNoFailure(w, table, b, id);
      AdmitOneKeeps(w, table, b, id);
      AdmitNoFailure(w, table, AdmitOne(w, b, id), i + 1);
    }
  }

  lemma DoneReceived(w: Plan, table: Table, a: Board, x: string)
    requires Inv(w, table, a) && x in a.inflight && IsDone(table, x) && a.failure.None?
    ensures Received(w, a, x, false).failure.None?
  {
    assert Good(w, table, a, x) && table[x] == EntryOf(w, table, x);
    WorkMeans(w, x, a.inflight[x]);
  }

  /** A step that runs gets no status during a pass ... */
  lemma PassAddsNoStatus(w: Plan, table: Table, b: Board, s: string)
    requires Valid(w) && Inv(w, table, Admit(w, b)) && Admit(w, b).failure.None?
    requires s in w.deps && s !in b.state && !IsSkip(table, s)
    ensures s !in Admit(w, b).state
  {
    assert Good(w, table, Admit(w, b), s) && s in Elements(w.order);
    var j :| 0 <= j < |w.order| && w.order[j] == s;
    if s in Admit(w, b).state {
      var e := StatusGained(w, b, 0, j);
    }
  }

  /** ... or when another step's completion is received. */
  lemma ReceiveAddsNoStatus(w: Plan, table: Table, a: Board, x: string, s: string)
    requires Valid(w) && Inv(w, table, a) && x in a.inflight && x in w.steps
    requires s in w.deps && s != x && s !in a.state && !IsSkip(table, s)
    ensures s !in Received(w, a, x, false).state
  {
    var c := Work(w, x, a.inflight[x], false);
    ReceiveKeeps(w, table, a, x, false);
    assert Good(w, table, Received(w, a, x, false), s);
    SkipLosersAt(a.state[x := c.out.status], w.steps[x].routes, c.target, s);
  }

  /** Where forward dependencies are safe and nothing has failed, a step that some step waited for
      is in flight or pending. */
  lemma WaitedIsHeld(w: Plan, rank: Graph.Ranking, table: Table, b: Board, i: nat, d: string)
    requires Valid(w) && Graph.Ranks(w.deps, rank) && ForwardSafe(w, rank)
    requires Inv(w, table, b) && Inv(w, table, Admit(w, b)) && Admit(w, b).failure.None?
    requires i < |w.order| && w.order[i] in w.deps && d in w.deps[w.order[i]] && d !in AdmitTo(w, b, i).state
    ensures d in Admit(w, b).inflight || d in Admit(w, b).pending
  {
    if d !in Admit(w, b).inflight && d !in Admit(w, b).pending {
      var j := HasStatusByEnd(w, table, Admit(w, b), d);
      var e := SkippedInPass(w, table, b, i, j);
      ForwardNotSkipped(w, rank, table, i, j, e);
    }
  }

  lemma ForwardNotSkipped(w: Plan, rank: Graph.Ranking, table: Table, i: nat, j: nat, e: string)
    requires Graph.Closed(w.deps) && Graph.Ranks(w.deps, rank) && ForwardSafe(w, rank) && IsReference(w, table)
    requires i <= j < |w.order| && w.order[i] in w.deps && w.order[j] in w.deps
    requires w.order[j] in w.deps[w.order[i]] && e in w.deps[w.order[j]]
    ensures !IsSkip(table, e)
  {
    assert rank[w.order[j]] < rank[w.order[i]];
    if IsSkip(table, e) {
      SkipIsBehindRoute(w, rank, table, e);
      assert ForwardDep(w, i, j);
    }
  }

  /** Two live sinks without which every skipped step is decided. */
  ghost predicate LossyPair(w: Plan, rank: Graph.Ranking, table: Table, x: string, y: string)
    requires Graph.Ranks(w.deps, rank)
  {
    && x != y && LiveSink(w, table, x) && LiveSink(w, table, y)
    && forall z :: z in w.deps && IsSkip(table, z) ==> Cleared(w, rank, table, {x, y}, z)
  }

  /** A run in which neither of the two has completed or failed, nor has anything else failed. */
  ghost predicate BothOpen(w: Plan, table: Table, b: Board, x: string, y: string) {
    Inv(w, table, b) && b.failure.None? && x !in b.state && y !in b.state
  }

  lemma PassKeepsOpen(w: Plan, table: Table, b: Board, x: string, y: string)
    requires Valid(w) && Resolves(w, table) && BothOpen(w, table, b, x, y) && LiveSink(w, table, x) && LiveSink(w, table, y)
    ensures BothOpen(w, table, Admit(w, b), x, y)
  {
    AdmitKeeps(w, table, b, 0);
    AdmitNoFailure(w, table, b, 0);
    PassAddsNoStatus(w, table, b, x);
    PassAddsNoStatus(w, table, b, y);
  }

  /** What a step pending after a pass found when it was visited. */
  lemma StillWaits(w: Plan, b: Board, i: nat) returns (k: nat)
    requires Known(w) && NoDup(w.order) && i < |w.order|
    requires Admit(w, b).failure.None? && w.order[i] in Admit(w, b).pending
    ensures var deps, at := w.deps[w.order[i]], AdmitTo(w, b, i);
            && !Is(at, w.order[i], Skipped) && at.failure.None?
            && k < |deps| && deps[k] !in at.state && forall j :: 0 <= j < k ==> Is(at, deps[j], Completed)
  {
    SlotAfterVisit(w, b, i);
    assert AdmitTo(w, b, i + 1) == AdmitOne(w, AdmitTo(w, b, i), w.order[i]);
    k := WaitIndex(AdmitTo(w, b, i).state, w.deps[w.order[i]]);
  }

  /** The step to look at next: one that completes and is in flight, or one that is pending. */
  ghost predicate Leads(w: Plan, table: Table, a: Board, x: string, y: string, q: string) {
    q in w.deps && (q in a.pending || (q in a.inflight && IsDone(table, q) && q != x && q != y))
  }

  /** A pending step that runs leads to a dependency that runs. */
  lemma RunningLeads(w: Plan, rank: Graph.Ranking, table: Table, b: Board, i: nat, x: string, y: string) returns (q: string)
    requires Valid(w) && Graph.Ranks(w.deps, rank) && ForwardSafe(w, rank) && !InnerHalt(w, table)
    requires Inv(w, table, b) && Inv(w, table, Admit(w, b)) && Admit(w, b).failure.None?
    requires i < |w.order| && w.order[i] in Admit(w, b).pending && w.order[i] in w.deps && !IsSkip(table, w.order[i])
    requires LiveSink(w, table, x) && LiveSink(w, table, y)
    ensures q in w.deps[w.order[i]] && Leads(w, table, Admit(w, b), x, y, q)
  {
    var p := w.order[i];
    var k := StillWaits(w, b, i);
    q := w.deps[p][k];
    WaitedIsHeld(w, rank, table, b, i, q);
    assert Good(w, table, Admit(w, b), q) && !Blocks(w, table, q, p);
  }

  /** A pending step that a router skips leads to that router. */
  lemma LoserLeads(w: Plan, table: Table, b: Board, i: nat, x: string, y: string, r: string)
    requires Valid(w) && Inv(w, table, b) && Inv(w, table, Admit(w, b)) && Admit(w, b).failure.None?
    requires i < |w.order| && w.order[i] in Admit(w, b).pending && Loses(w, table, r, w.order[i]) && r != x && r != y
    ensures w.order[i] in w.deps && r in w.deps[w.order[i]] && Leads(w, table, Admit(w, b), x, y, r)
  {
    var p := w.order[i];
    var k := StillWaits(w, b, i);
    AdmitToKeeps(w, table, b, i);
    assert r in w.deps && Good(w, table, AdmitTo(w, b, i), r) && Good(w, table, Admit(w, b), r);
    assert r !in AdmitTo(w, b, i).state;
    if r in Admit(w, b).state {
      var j := IndexOfStep(w, r);
      var e := StatusGained(w, b, i, j);
    }
  }

  lemma IndexOfStep(w: Plan, id: string) returns (j: nat)
    requires Valid(w) && id in w.deps
    ensures j < |w.order| && w.order[j] == id
  {
    assert id in Elements(w.order);
    j :| 0 <= j < |w.order| && w.order[j] == id;
  }

  /** A pending step that is skipped behind completed dependencies leads to one of them, or to the
      skipped one. */
  lemma SkippedLeads(w: Plan, rank: Graph.Ranking, table: Table, b: Board, i: nat, x: string, y: string, n: nat) returns (q: string)
    requires Valid(w) && Graph.Ranks(w.deps, rank) && ForwardSafe(w, rank)
    requires Inv(w, table, b) && Inv(w, table, Admit(w, b)) && Admit(w, b).failure.None?
    requires i < |w.order| && w.order[i] in Admit(w, b).pending && w.order[i] in w.deps
    requires n < |w.deps[w.order[i]]| && DoneBefore(w, table, {x, y}, w.order[i], n) && IsSkip(table, w.deps[w.order[i]][n])
    ensures q in w.deps[w.order[i]] && Leads(w, table, Admit(w, b), x, y, q)
  {
    var p := w.order[i];
    var k := StillWaits(w, b, i);
    q := w.deps[p][k];
    AdmitToKeeps(w, table, b, i);
    if n < k { SkippedNotCompleted(w, table, AdmitTo(w, b, i), w.deps[p][n]); }
    WaitedIsHeld(w, rank, table, b, i, q);
    assert IsSkip(table, q) || (IsDone(table, q) && q != x && q != y);
    if q in Admit(w, b).inflight { InFlightOpen(w, table, Admit(w, b), q); }
  }

  lemma SkippedNotCompleted(w: Plan, table: Table, b: Board, z: string)
    requires Inv(w, table, b) && z in w.deps && IsSkip(table, z)
    ensures !Is(b, z, Completed)
  {
    assert Good(w, table, b, z);
  }

  lemma ClearedLeads(w: Plan, rank: Graph.Ranking, table: Table, b: Board, i: nat, x: string, y: string) returns (q: string)
    requires Valid(w) && Graph.Ranks(w.deps, rank) && ForwardSafe(w, rank)
    requires Inv(w, table, b) && Inv(w, table, Admit(w, b)) && Admit(w, b).failure.None?
    requires i < |w.order| && w.order[i] in Admit(w, b).pending && w.order[i] in w.deps
    requires Cleared(w, rank, table, {x, y}, w.order[i])
    ensures q in w.deps[w.order[i]] && Leads(w, table, Admit(w, b), x, y, q)
  {
    var p := w.order[i];
    if r :| r !in {x, y} && Loses(w, table, r, p) {
      LoserLeads(w, table, b, i, x, y, r);
      q := r;
    } else {
      var n :| 0 <= n < |w.deps[p]| && w.deps[p][n] in w.deps && DoneBefore(w, table, {x, y}, p, n)
               && IsSkip(table, w.deps[p][n]) && Cleared(w, rank, table, {x, y}, w.deps[p][n]);
      q := SkippedLeads(w, rank, table, b, i, x, y, n);
    }
  }

  lemma {:induction false} NextCompletion(w: Plan, rank: Graph.Ranking, table: Table, b: Board, p: string, x: string, y: string)
    returns (e: string)
    requires Valid(w) && Graph.Ranks(w.deps, rank) && ForwardSafe(w, rank) && !InnerHalt(w, table) && LossyPair(w, rank, table, x, y)
    requires Inv(w, table, b) && Inv(w, table, Admit(w, b)) && Admit(w, b).failure.None? && p in Admit(w, b).pending && p in w.deps
    ensures e in Admit(w, b).inflight && e in w.deps && IsDone(table, e) && e != x && e != y
    decreases rank[p]
  {
    var i := IndexOfStep(w, p);
    var q;
    if !IsSkip(table, p) {
      q := RunningLeads(w, rank, table, b, i, x, y);
    } else {
      q := ClearedLeads(w, rank, table, b, i, x, y);
    }
    assert rank[q] < rank[p];
    if q in Admit(w, b).pending {
      e := NextCompletion(w, rank, table, b, q, x, y);
    } else {
      e := q;
    }
  }

  /** Receiving a step that completes leaves both open, with less work. */
  lemma StaysOpen(w: Plan, table: Table, trace: seq<Event>, e: string, x: string, y: string)
    requires Valid(w) && Resolves(w, table) && BoardAfter(w, trace).Some? && LiveSink(w, table, x) && LiveSink(w, table, y)
    requires var b := BoardAfter(w, trace).value; BothOpen(w, table, b, x, y) && b.pending != {} && e in Admit(w, b).inflight
    requires e in w.deps && IsDone(table, e) && e != x && e != y
    ensures var next := BoardAfter(w, trace + [Event(e, false)]);
            && next.Some? && BothOpen(w, table, next.value, x, y)
            && next.value.pending == Admit(w, BoardAfter(w, trace).value).pending
            && Load(next.value) < Load(BoardAfter(w, trace).value)
  {
    var b := BoardAfter(w, trace).value;
    var a := Admit(w, b);
    PassKeepsOpen(w, table, b, x, y);
    TraceStep(w, trace, b, Event(e, false));
    IterationProgress(w, b, Event(e, false));
    ReceiveKeeps(w, table, a, e, false);
    DoneReceived(w, table, a, e);
    ReceiveAddsNoStatus(w, table, a, e, x);
    ReceiveAddsNoStatus(w, table, a, e, y);
    ReceiveFrame(w, a, e, false);
  }

  /** With nothing left pending, receiving one of the two loses the other. */
  lemma LastTwo(w: Plan, table: Table, trace: seq<Event>, x: string, y: string)
    requires Valid(w) && Resolves(w, table) && BoardAfter(w, trace).Some? && LiveSink(w, table, x) && LiveSink(w, table, y) && x != y
    requires var b := BoardAfter(w, trace).value; BothOpen(w, table, b, x, y) && b.pending != {} && Admit(w, b).pending == {}
    ensures var next := BoardAfter(w, trace + [Event(x, false)]); next.Some? && LeavesInFlight(w, next.value)
  {
    var b := BoardAfter(w, trace).value;
    var a := Admit(w, b);
    PassKeepsOpen(w, table, b, x, y);
    assert Good(w, table, a, x) && Good(w, table, a, y);
    TraceStep(w, trace, b, Event(x, false));
    ReceiveFrame(w, a, x, false);
    assert y in a.inflight - {x};
  }

  /** From any run that has received neither of a lossy pair, some continuation loses one of them. */
  lemma {:induction false} PairLoses(w: Plan, rank: Graph.Ranking, table: Table, trace: seq<Event>, x: string, y: string)
    returns (lossy: seq<Event>)
    requires Valid(w) && Graph.Ranks(w.deps, rank) && ForwardSafe(w, rank) && Resolves(w, table) && !InnerHalt(w, table)
    requires LossyPair(w, rank, table, x, y) && BoardAfter(w, trace).Some?
    requires var b := BoardAfter(w, trace).value; BothOpen(w, table, b, x, y) && b.pending != {}
    ensures BoardAfter(w, lossy).Some? && LeavesInFlight(w, BoardAfter(w, lossy).value)
    decreases Load(BoardAfter(w, trace).value)
  {
    var b := BoardAfter(w, trace).value;
    var a := Admit(w, b);
    if a.pending == {} {
      LastTwo(w, table, trace, x, y);
      lossy := trace + [Event(x, false)];
    } else {
      var p :| p in a.pending;
      PassKeepsOpen(w, table, b, x, y);
      var e := NextCompletion(w, rank, table, b, p, x, y);
      StaysOpen(w, table, trace, e, x, y);
      lossy := PairLoses(w, rank, table, trace + [Event(e, false)], x, y);
    }
  }

  /** Conversely, every run that loses something ends on such a pair. */
  lemma LossHasPair(w: Plan, rank: Graph.Ranking, table: Table, trace: seq<Event>) returns (x: string, y: string)
    requires Valid(w) && Graph.Ranks(w.deps, rank) && IsReference(w, table) && BoardAfter(w, trace).Some?
    requires LeavesInFlight(w, BoardAfter(w, trace).value)
    ensures LossyPair(w, rank, table, x, y)
  {
    var before, a;
    before, a, x := LossyPass(w, table, trace);
    y :| y in BoardAfter(w, trace).value.inflight;
    InFlightIsLiveSink(w, table, a, x);
    InFlightIsLiveSink(w, table, a, y);
    EmptyPassClears(w, rank, table, before, x, y);
  }

  /** A pass that ends with nothing pending has decided every skipped step without what is in flight. */
  lemma EmptyPassClears(w: Plan, rank: Graph.Ranking, table: Table, trace: seq<Event>, x: string, y: string)
    requires Valid(w) && Graph.Ranks(w.deps, rank) && IsReference(w, table) && BoardAfter(w, trace).Some?
    requires var a := Admit(w, BoardAfter(w, trace).value); a.pending == {} && x in a.inflight && y in a.inflight
    ensures forall z :: z in w.deps && IsSkip(table, z) ==> Cleared(w, rank, table, {x, y}, z)
  {
    var b := BoardAfter(w, trace).value;
    RunKeeps(w, table, trace);
    InFlightOpen(w, table, Admit(w, b), x);
    InFlightOpen(w, table, Admit(w, b), y);
    PassClears(w, rank, table, {x, y}, trace);
    forall z | z in w.deps && IsSkip(table, z) ensures Cleared(w, rank, table, {x, y}, z) {
      SkippedByEnd(w, table, Admit(w, b), z);
    }
  }

  lemma InFlightOpen(w: Plan, table: Table, a: Board, x: string)
    requires Inv(w, table, a) && x in a.inflight
    ensures x !in a.state && !IsSkip(table, x)
  {
    assert Good(w, table, a, x);
  }

  lemma SkippedByEnd(w: Plan, table: Table, a: Board, z: string)
    requires Inv(w, table, a) && a.pending == {} && z in w.deps && IsSkip(table, z)
    ensures Is(a, z, Skipped)
  {
    assert Good(w, table, a, z);
  }

  /** The exact condition, with or without routers, where forward dependencies are safe and inputs
      resolve: no run loses a completion if and only if some step with a dependent that is not skipped
      never completes, or there is no lossy pair. */
  lemma DrainsIff(w: Plan, rank: Graph.Ranking, table: Table)
    requires Valid(w) && Graph.Ranks(w.deps, rank) && IsReference(w, table) && ForwardSafe(w, rank) && Resolves(w, table)
    ensures AllRunsDrain(w) <==> InnerHalt(w, table) || forall x, y :: !LossyPair(w, rank, table, x, y)
  {
    if InnerHalt(w, table) {
      forall trace | BoardAfter(w, trace).Some? ensures !LeavesInFlight(w, BoardAfter(w, trace).value) {
        InnerHaltDrains(w, table, trace);
      }
    } else if x, y :| LossyPair(w, rank, table, x, y) {
      var lossy := FirstLoss(w, rank, table, x, y);
    } else {
      forall trace | BoardAfter(w, trace).Some? ensures !LeavesInFlight(w, BoardAfter(w, trace).value) {
        if LeavesInFlight(w, BoardAfter(w, trace).value) {
          var x, y := LossHasPair(w, rank, table, trace);
        }
      }
    }
  }

  lemma FirstLoss(w: Plan, rank: Graph.Ranking, table: Table, x: string, y: string) returns (lossy: seq<Event>)
    requires Valid(w) && Graph.Ranks(w.deps, rank) && IsReference(w, table) && ForwardSafe(w, rank) && Resolves(w, table)
    requires !InnerHalt(w, table) && LossyPair(w, rank, table, x, y)
    ensures BoardAfter(w, lossy).Some? && LeavesInFlight(w, BoardAfter(w, lossy).value)
  {
    var i := IndexOfStep(w, x);
    assert BoardAfter(w, []) == Some(Start(w)) && x in Start(w).pending;
    RunKeeps(w, table, []);
    lossy := PairLoses(w, rank, table, [], x, y);
  }

  // --------------------------------------------------------------- without routers

  /** Nothing depends on the step. */
  ghost predicate Sink(w: Plan, id: string) {
    id in w.deps && forall x :: x in w.deps ==> id !in w.deps[x]
  }

  ghost predicate AtMostOneSink(w: Plan) {
    forall x, y :: Sink(w, x) && Sink(w, y) ==> x == y
  }

  lemma NoSkips(w: Plan, rank: Graph.Ranking, table: Table, id: string)
    requires Graph.Closed(w.deps) && Graph.Ranks(w.deps, rank) && RouterFree(w) && IsReference(w, table)
    ensures !IsSkip(table, id)
  {
    if IsSkip(table, id) {
      SkipIsBehindRoute(w, rank, table, id);
      RouterFreeNotBehind(w, rank, id);
    }
  }

  lemma LiveSinksAreSinks(w: Plan, rank: Graph.Ranking, table: Table)
    requires Graph.Closed(w.deps) && Graph.Ranks(w.deps, rank) && RouterFree(w) && IsReference(w, table)
    ensures forall id :: LiveSink(w, table, id) <==> Sink(w, id)
    ensures forall x, y :: LossyPair(w, rank, table, x, y) <==> x != y && Sink(w, x) && Sink(w, y)
    ensures InnerHalt(w, table) <==> exists h :: h in table && table[h].verdict.Halted? && !Sink(w, h)
    ensures ForwardSafe(w, rank)
  {
    forall id ensures !IsSkip(table, id) { NoSkips(w, rank, table, id); }
    forall id | id in w.deps ensures !BehindRoute(w, rank, id) { RouterFreeNotBehind(w, rank, id); }
    forall h | h in table && table[h].verdict.Halted? && !Sink(w, h) ensures InnerHalt(w, table) {
      var z :| z in w.deps && h in w.deps[z];
      assert Blocks(w, table, h, z);
    }
  }

  /** Without routers, one step without dependents is enough, whatever fails or is interrupted. */
  lemma OneSinkDrains(w: Plan, rank: Graph.Ranking, trace: seq<Event>)
    requires Valid(w) && Graph.Ranks(w.deps, rank) && RouterFree(w) && AtMostOneSink(w)
    requires BoardAfter(w, trace).Some?
    ensures !LeavesInFlight(w, BoardAfter(w, trace).value)
  {
    var table := ReferenceExists(w, rank);
    LiveSinksAreSinks(w, rank, table);
    OneLiveSinkDrains(w, table, trace);
  }
}
