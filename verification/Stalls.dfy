/** Pipelines in which some run of the owner loop does get stuck. */
module Stalls {
  import opened Prelude
  import opened Scheduler
  import opened Reference
  import opened Runs
  import opened Progress
  import opened Clearing
  import opened Drains
  import Graph

  ghost predicate NothingHalts(table: Table) {
    forall id :: id in table ==> !table[id].verdict.Halted?
  }

  /** The first skipped dependency of p, in list order. */
  ghost predicate FirstSkip(w: Plan, table: Table, p: string, k: nat) {
    && p in w.deps && k < |w.deps[p]| && IsSkip(table, w.deps[p][k])
    && forall j :: 0 <= j < k ==> !IsSkip(table, w.deps[p][j])
  }

  /** The i-th step waits for the j-th, declared after it and the first of its dependencies to be skipped. */
  ghost predicate LateDep(w: Plan, table: Table, i: nat, j: nat, k: nat) {
    && i < j < |w.order| && w.order[j] in w.deps
    && FirstSkip(w, table, w.order[i], k) && w.deps[w.order[i]][k] == w.order[j]
  }

  /** Moreover, neither is skipped by a router directly, and the j-th is not decided before e completes. */
  ghost predicate LateSkip(w: Plan, rank: Graph.Ranking, table: Table, e: string, i: nat, j: nat, k: nat)
    requires Graph.Ranks(w.deps, rank)
  {
    && LiveSink(w, table, e) && LateDep(w, table, i, j, k)
    && (forall r :: !Loses(w, table, r, w.order[i])) && !Loses(w, table, e, w.order[j])
    && !Cleared(w, rank, table, {e}, w.order[j])
  }

  lemma LateIsSkipped(w: Plan, table: Table, i: nat, j: nat, k: nat)
    requires IsReference(w, table) && LateDep(w, table, i, j, k)
    ensures IsSkip(table, w.order[i]) && IsSkip(table, w.order[j])
  {
    assert table[w.order[i]] == EntryOf(w, table, w.order[i]);
  }

  /** A step can only be decided through its first skipped dependency. */
  lemma FirstSkipDecides(w: Plan, table: Table, held: set<string>, p: string, k: nat, n: nat)
    requires FirstSkip(w, table, p, k) && n < |w.deps[p]| && DoneBefore(w, table, held, p, n) && IsSkip(table, w.deps[p][n])
    ensures n == k
  {
    assert k < n ==> IsDone(table, w.deps[p][k]);
  }

  lemma LateNotCleared(w: Plan, rank: Graph.Ranking, table: Table, e: string, i: nat, j: nat, k: nat)
    requires Graph.Ranks(w.deps, rank) && LateSkip(w, rank, table, e, i, j, k)
    ensures !Cleared(w, rank, table, {e}, w.order[i])
  {
    var p := w.order[i];
    forall n: nat | n < |w.deps[p]| && DoneBefore(w, table, {e}, p, n) && IsSkip(table, w.deps[p][n]) ensures n == k {
      FirstSkipDecides(w, table, {e}, p, k, n);
    }
  }

  /** A run that has not failed and has not received e. */
  ghost predicate Waiting(w: Plan, table: Table, b: Board, e: string) {
    Inv(w, table, b) && b.failure.None? && e !in b.state
  }

  lemma PassWaits(w: Plan, table: Table, b: Board, e: string)
    requires Valid(w) && NothingHalts(table) && Waiting(w, table, b, e) && LiveSink(w, table, e)
    ensures Waiting(w, table, Admit(w, b), e)
  {
    AdmitKeeps(w, table, b, 0);
    AdmitNoFailure(w, table, b, 0);
    PassAddsNoStatus(w, table, b, e);
  }

  /** A skipped step that is not decided without e has no status before e has one. */
  lemma UndecidedIsPending(w: Plan, rank: Graph.Ranking, table: Table, a: Board, e: string, z: string)
    requires Graph.Ranks(w.deps, rank) && Inv(w, table, a) && SkipsCleared(w, rank, table, {e}, a)
    requires z in w.deps && IsSkip(table, z) && !Cleared(w, rank, table, {e}, z)
    ensures z in a.pending && z !in a.state
  {
    assert Good(w, table, a, z);
  }

  /** After a pass with nothing in flight but e, every other step that runs has completed. */
  lemma {:induction false} OthersCompleted(w: Plan, rank: Graph.Ranking, table: Table, b: Board, e: string, q: string)
    requires Valid(w) && Graph.Ranks(w.deps, rank) && Inv(w, table, b) && Inv(w, table, Admit(w, b)) && Admit(w, b).failure.None?
    requires LiveSink(w, table, e) && (forall x :: x in Admit(w, b).inflight ==> x == e)
    requires q in w.deps && !IsSkip(table, q)
    ensures q in Admit(w, b).inflight || Is(Admit(w, b), q, Completed)
    decreases rank[q]
  {
    var a := Admit(w, b);
    assert Good(w, table, a, q);
    if q in a.pending && q !in a.state {
      var i := IndexOfStep(w, q);
      var d := PendingWaited(w, b, i);
      assert d in w.deps && table[q] == EntryOf(w, table, q);
      assert !IsSkip(table, d) && rank[d] < rank[q];
      OthersCompleted(w, rank, table, b, e, d);
      assert d in a.state;
      var j := IndexOfStep(w, d);
      var s := StatusGained(w, b, i, j);
    }
  }

  // ----------------------------------------------------------------- the last pass

  lemma {:induction false} WaitAt(state: map<string, Status>, deps: seq<string>, k: nat)
    requires k < |deps| && deps[k] !in state && forall j :: 0 <= j < k ==> deps[j] in state && state[deps[j]] == Completed
    ensures DepStatus(state, deps) == Wait
  {
    if k > 0 {
      assert deps[0] in state;
      forall j | 0 <= j < k - 1 ensures deps[1..][j] in state && state[deps[1..][j]] == Completed {
        assert deps[1..][j] == deps[j + 1];
      }
      WaitAt(state, deps[1..], k - 1);
    }
  }

  /** A step that waits for one declared after it is still pending when the pass ends. */
  lemma StaysPending(w: Plan, table: Table, b: Board, i: nat, j: nat, k: nat)
    requires Valid(w) && Inv(w, table, b) && i < j < |w.order| && w.order[i] in w.deps && k < |w.deps[w.order[i]]|
    requires w.deps[w.order[i]][k] == w.order[j] && w.order[j] !in b.state
    requires forall n :: 0 <= n < k ==> Is(b, w.deps[w.order[i]][n], Completed)
    requires w.order[i] in b.pending && w.order[i] !in b.state
    ensures w.order[i] in Admit(w, b).pending
  {
    var p, at := w.order[i], AdmitTo(w, b, i);
    SlotKept(w, b, 0, i, w.order[j]);
    SlotAfterVisit(w, b, i);
    forall n | 0 <= n < k ensures w.deps[p][n] in at.state && at.state[w.deps[p][n]] == Completed {
      assert w.deps[p][n] in w.deps;
      CompletedStays(w, table, b, i, w.deps[p][n]);
    }
    WaitAt(at.state, w.deps[p], k);
    assert AdmitTo(w, b, i + 1) == at;
  }

  // ---------------------------------------------------------------------- the run

  /** What holds when everything but e has been received. */
  ghost predicate OnlyELeft(w: Plan, table: Table, a: Board, e: string) {
    && Waiting(w, table, a, e) && e in a.inflight
    && forall q :: q in w.deps && !IsSkip(table, q) && q != e ==> Is(a, q, Completed)
  }

  /** Receiving e leaves a step that was not decided without it, and that e does not skip, undecided. */
  lemma StaysUndecided(w: Plan, rank: Graph.Ranking, table: Table, a: Board, b: Board, e: string, z: string)
    requires Valid(w) && Graph.Ranks(w.deps, rank) && OnlyELeft(w, table, a, e) && NothingHalts(table) && LiveSink(w, table, e)
    requires SkipsCleared(w, rank, table, {e}, a) && b == Received(w, a, e, false)
    requires z in w.deps && IsSkip(table, z) && !Loses(w, table, e, z) && !Cleared(w, rank, table, {e}, z)
    ensures Inv(w, table, b) && b.failure.None? && z in b.pending && z !in b.state
  {
    UndecidedIsPending(w, rank, table, a, e, z);
    assert Good(w, table, a, e);
    ReceiveKeeps(w, table, a, e, false);
    DoneReceived(w, table, a, e);
    ReceiveFrame(w, a, e, false);
    ReceivedMarks(w, table, a, e, false, z);
    assert Good(w, table, b, z);
  }

  lemma AllCompleted(w: Plan, table: Table, a: Board, e: string, q: string)
    requires Valid(w) && OnlyELeft(w, table, a, e) && NothingHalts(table) && LiveSink(w, table, e)
    requires q in w.deps && !IsSkip(table, q)
    ensures Is(Received(w, a, e, false), q, Completed)
  {
    assert Good(w, table, a, e);
    ReceiveKeeps(w, table, a, e, false);
    DoneReceived(w, table, a, e);
    ReceivedMarks(w, table, a, e, false, q);
    assert Good(w, table, Received(w, a, e, false), q);
  }

  /** Every step that runs has completed. */
  ghost predicate AllRan(w: Plan, table: Table, b: Board) {
    forall q :: q in w.deps && !IsSkip(table, q) ==> Is(b, q, Completed)
  }

  /** A pass then starts nothing. */
  lemma NothingStarts(w: Plan, table: Table, b: Board)
    requires Valid(w) && Inv(w, table, b) && Inv(w, table, Admit(w, b)) && AllRan(w, table, b)
    ensures Admit(w, b).inflight == map[]
  {
    StatesGrow(w, b, 0);
    forall q | q in w.deps ensures q !in Admit(w, b).inflight {
      assert Good(w, table, Admit(w, b), q);
    }
  }

  lemma ExitStalled(w: Plan, b: Board)
    requires Known(w) && b.pending != {}
    requires Admit(w, b).pending != {} && Admit(w, b).failure.None? && Admit(w, b).inflight == map[]
    ensures ExitFrom(w, b).Stalled?
  {
  }

  /** The pass leaves the late step over. */
  lemma LateIsLeft(w: Plan, table: Table, b: Board, i: nat, j: nat, k: nat)
    requires Valid(w) && NothingHalts(table) && LateDep(w, table, i, j, k) && AllRan(w, table, b)
    requires Inv(w, table, b) && b.failure.None? && w.order[i] in b.pending && w.order[i] !in b.state && w.order[j] !in b.state
    ensures ExitFrom(w, b).Stalled?
  {
    var deps := w.deps[w.order[i]];
    forall n | 0 <= n < k ensures Is(b, deps[n], Completed) { assert deps[n] in w.deps; }
    StaysPending(w, table, b, i, j, k);
    AdmitKeeps(w, table, b, 0);
    AdmitNoFailure(w, table, b, 0);
    NothingStarts(w, table, b);
    ExitStalled(w, b);
  }

  lemma LastPassStalls(w: Plan, rank: Graph.Ranking, table: Table, a: Board, e: string, i: nat, j: nat, k: nat)
    requires Valid(w) && Graph.Ranks(w.deps, rank) && IsReference(w, table) && NothingHalts(table) && LateSkip(w, rank, table, e, i, j, k)
    requires OnlyELeft(w, table, a, e) && SkipsCleared(w, rank, table, {e}, a)
    ensures ExitFrom(w, Received(w, a, e, false)).Stalled?
  {
    var p, d, b := w.order[i], w.order[j], Received(w, a, e, false);
    LateIsSkipped(w, table, i, j, k);
    LateNotCleared(w, rank, table, e, i, j, k);
    assert !Loses(w, table, e, p);
    StaysUndecided(w, rank, table, a, b, e, p);
    StaysUndecided(w, rank, table, a, b, e, d);
    forall q | q in w.deps && !IsSkip(table, q) ensures Is(b, q, Completed) { AllCompleted(w, table, a, e, q); }
    LateIsLeft(w, table, b, i, j, k);
  }

  /** Receiving a step other than e goes on waiting, with less work. */
  lemma ReceiveOther(w: Plan, table: Table, trace: seq<Event>, x: string, e: string)
    requires Valid(w) && NothingHalts(table) && BoardAfter(w, trace).Some? && LiveSink(w, table, e)
    requires var b := BoardAfter(w, trace).value; Waiting(w, table, b, e) && b.pending != {} && x in Admit(w, b).inflight && x != e
    ensures var next := BoardAfter(w, trace + [Event(x, false)]);
            next.Some? && Waiting(w, table, next.value, e) && Load(next.value) < Load(BoardAfter(w, trace).value)
  {
    var b := BoardAfter(w, trace).value;
    var a := Admit(w, b);
    PassWaits(w, table, b, e);
    assert Good(w, table, a, x);
    TraceStep(w, trace, b, Event(x, false));
    IterationProgress(w, b, Event(x, false));
    ReceiveKeeps(w, table, a, x, false);
    DoneReceived(w, table, a, x);
    ReceiveAddsNoStatus(w, table, a, x, e);
  }

  /** The late step is pending at the loop head, so the loop goes on. */
  lemma HeadPending(w: Plan, rank: Graph.Ranking, table: Table, trace: seq<Event>, e: string, i: nat, j: nat, k: nat)
    requires Valid(w) && Graph.Ranks(w.deps, rank) && IsReference(w, table) && LateSkip(w, rank, table, e, i, j, k)
    requires BoardAfter(w, trace).Some? && Waiting(w, table, BoardAfter(w, trace).value, e)
    ensures BoardAfter(w, trace).value.pending != {}
  {
    RunClears(w, rank, table, {e}, trace);
    LateIsSkipped(w, table, i, j, k);
    LateNotCleared(w, rank, table, e, i, j, k);
    UndecidedIsPending(w, rank, table, BoardAfter(w, trace).value, e, w.order[i]);
  }

  lemma PassLeavesE(w: Plan, rank: Graph.Ranking, table: Table, b: Board, e: string)
    requires Valid(w) && Graph.Ranks(w.deps, rank) && NothingHalts(table) && LiveSink(w, table, e) && Waiting(w, table, b, e)
    requires forall x :: x in Admit(w, b).inflight ==> x == e
    ensures OnlyELeft(w, table, Admit(w, b), e)
  {
    PassWaits(w, table, b, e);
    forall q | q in w.deps && !IsSkip(table, q) ensures q in Admit(w, b).inflight || Is(Admit(w, b), q, Completed) {
      OthersCompleted(w, rank, table, b, e, q);
    }
  }

  /** With only e in flight, receiving it stalls. */
  lemma ReceiveLast(w: Plan, rank: Graph.Ranking, table: Table, trace: seq<Event>, e: string, i: nat, j: nat, k: nat)
    requires Valid(w) && Graph.Ranks(w.deps, rank) && IsReference(w, table) && NothingHalts(table) && LateSkip(w, rank, table, e, i, j, k)
    requires BoardAfter(w, trace).Some? && BoardAfter(w, trace).value.pending != {} && Waiting(w, table, BoardAfter(w, trace).value, e)
    requires forall x :: x in Admit(w, BoardAfter(w, trace).value).inflight ==> x == e
    ensures var next := BoardAfter(w, trace + [Event(e, false)]); next.Some? && ExitFrom(w, next.value).Stalled?
  {
    var b := BoardAfter(w, trace).value;
    PassLeavesE(w, rank, table, b, e);
    PassClears(w, rank, table, {e}, trace);
    TraceStep(w, trace, b, Event(e, false));
    LastPassStalls(w, rank, table, Admit(w, b), e, i, j, k);
  }

  /** From any run that has not received e, receiving everything else first and then e stalls. */
  lemma {:induction false} StallsFrom(w: Plan, rank: Graph.Ranking, table: Table, trace: seq<Event>, e: string, i: nat, j: nat, k: nat)
    returns (stalling: seq<Event>)
    requires Valid(w) && Graph.Ranks(w.deps, rank) && IsReference(w, table) && NothingHalts(table) && LateSkip(w, rank, table, e, i, j, k)
    requires BoardAfter(w, trace).Some? && Waiting(w, table, BoardAfter(w, trace).value, e)
    ensures BoardAfter(w, stalling).Some? && ExitFrom(w, BoardAfter(w, stalling).value).Stalled?
    decreases Load(BoardAfter(w, trace).value)
  {
    HeadPending(w, rank, table, trace, e, i, j, k);
    if x :| x in Admit(w, BoardAfter(w, trace).value).inflight && x != e {
      ReceiveOther(w, table, trace, x, e);
      stalling := StallsFrom(w, rank, table, trace + [Event(x, false)], e, i, j, k);
    } else {
      stalling := trace + [Event(e, false)];
      ReceiveLast(w, rank, table, trace, e, i, j, k);
    }
  }

  /** A late skip stalls some run: everything that runs completes, e last of all, and the step declared
      before the dependency it waits for is left pending. */
  lemma StallsIf(w: Plan, rank: Graph.Ranking, table: Table, e: string, i: nat, j: nat, k: nat) returns (trace: seq<Event>)
    requires Valid(w) && Graph.Ranks(w.deps, rank) && IsReference(w, table) && NothingHalts(table) && LateSkip(w, rank, table, e, i, j, k)
    ensures BoardAfter(w, trace).Some? && ExitFrom(w, BoardAfter(w, trace).value).Stalled?
  {
    assert BoardAfter(w, []) == Some(Start(w));
    RunKeeps(w, table, []);
    trace := StallsFrom(w, rank, table, [], e, i, j, k);
  }
}
