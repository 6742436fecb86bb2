/** When the owner loop gets stuck. */
module Progress {
  import opened Prelude
  import opened Scheduler
  import opened Reference
  import opened Runs
  import Graph

  // ------------------------------------------------------------- inside one pass

  /** The board after the admission loop has visited the first k steps. */
  ghost function AdmitTo(w: Plan, b: Board, k: nat): Board
    requires Known(w) && k <= |w.order|
  {
    if k == 0 then b else AdmitOne(w, AdmitTo(w, b, k - 1), w.order[k-1])
  }

  lemma {:induction false} AdmitToEnd(w: Plan, b: Board, k: nat)
    requires Known(w) && k <= |w.order|
    ensures AdmitFrom(w, AdmitTo(w, b, k), k) == Admit(w, b)
    decreases k
  {
    if k > 0 {
      AdmitToEnd(w, b, k - 1);
    }
  }

  ghost predicate SameSlot(b: Board, b': Board, x: string) {
    && (x in b.pending <==> x in b'.pending)
    && (x in b.inflight <==> x in b'.inflight)
    && (x in b.state <==> x in b'.state) && (x in b.state ==> b.state[x] == b'.state[x])
  }

  lemma AdmitOneFrame(w: Plan, b: Board, id: string, x: string)
    requires id in w.steps && id in w.deps && x != id
    ensures SameSlot(b, AdmitOne(w, b, id), x)
    ensures b.failure.Some? ==> AdmitOne(w, b, id).failure.Some?
  {
  }

  /** A pass touches a step only when it visits it. */
  lemma {:induction false} SlotKept(w: Plan, b: Board, lo: nat, hi: nat, x: string)
    requires Known(w) && lo <= hi <= |w.order|
    requires forall k :: lo <= k < hi ==> w.order[k] != x
    ensures SameSlot(AdmitTo(w, b, lo), AdmitTo(w, b, hi), x)
    decreases hi
  {
    if lo < hi {
      SlotKept(w, b, lo, hi - 1, x);
      assert w.order[hi-1] != x;
      AdmitOneFrame(w, AdmitTo(w, b, hi - 1), w.order[hi-1], x);
    }
  }

  lemma {:induction false} FailureStays(w: Plan, b: Board, lo: nat, hi: nat)
    requires Known(w) && lo <= hi <= |w.order| && AdmitTo(w, b, lo).failure.Some?
    ensures AdmitTo(w, b, hi).failure.Some?
    decreases hi
  {
    if lo < hi {
      FailureStays(w, b, lo, hi - 1);
    }
  }

  lemma SlotAfterVisit(w: Plan, b: Board, i: nat)
    requires Known(w) && NoDup(w.order) && i < |w.order|
    ensures SameSlot(b, AdmitTo(w, b, i), w.order[i])
    ensures SameSlot(AdmitTo(w, b, i + 1), Admit(w, b), w.order[i])
    ensures Admit(w, b).failure.None? ==> AdmitTo(w, b, i).failure.None? && AdmitTo(w, b, i + 1).failure.None?
  {
    SlotKept(w, b, 0, i, w.order[i]);
    SlotKept(w, b, i + 1, |w.order|, w.order[i]);
    AdmitToEnd(w, b, |w.order|);
    if AdmitTo(w, b, i).failure.Some? { FailureStays(w, b, i, |w.order|); }
    if AdmitTo(w, b, i + 1).failure.Some? { FailureStays(w, b, i + 1, |w.order|); }
  }

  lemma {:induction false} WaitHasCause(state: map<string, Status>, deps: seq<string>) returns (d: string)
    requires DepStatus(state, deps) == Wait
    ensures d in deps && d !in state
  {
    if deps[0] in state {
      d := WaitHasCause(state, deps[1..]);
    } else {
      d := deps[0];
    }
  }

  /** A step still pending after a pass without failure was visited while one of its
      dependencies had no status. */
  lemma PendingWaited(w: Plan, b: Board, i: nat) returns (d: string)
    requires Known(w) && NoDup(w.order) && i < |w.order|
    requires Admit(w, b).failure.None? && w.order[i] in Admit(w, b).pending
    ensures d in w.deps[w.order[i]] && d !in AdmitTo(w, b, i).state
  {
    var p := w.order[i];
    SlotAfterVisit(w, b, i);
    var at := AdmitTo(w, b, i);
    assert AdmitTo(w, b, i + 1) == AdmitOne(w, at, p);
    d := WaitHasCause(at.state, w.deps[p]);
  }

  /** A step that gets a status during a pass without failure is skipped because of a dependency. */
  lemma StatusGained(w: Plan, b: Board, i: nat, j: nat) returns (e: string)
    requires Known(w) && NoDup(w.order) && i < |w.order| && j < |w.order|
    requires Admit(w, b).failure.None?
    requires w.order[j] !in AdmitTo(w, b, i).state && w.order[j] in Admit(w, b).state
    ensures j >= i && Is(Admit(w, b), w.order[j], Skipped)
    ensures e in w.deps[w.order[j]] && e in AdmitTo(w, b, j).state && AdmitTo(w, b, j).state[e] != Completed
  {
    var d := w.order[j];
    SlotAfterVisit(w, b, j);
    if j < i {
      SlotKept(w, b, j + 1, i, d);
      assert false;
    }
    SlotKept(w, b, i, j, d);
    var at := AdmitTo(w, b, j);
    assert AdmitTo(w, b, j + 1) == AdmitOne(w, at, d);
    e := SkipHasCause(at.state, w.deps[d]);
  }

  lemma {:induction false} AdmitToKeeps(w: Plan, table: Table, b: Board, k: nat)
    requires Valid(w) && Inv(w, table, b) && k <= |w.order|
    ensures Inv(w, table, AdmitTo(w, b, k))
  {
    if k > 0 {
      AdmitToKeeps(w, table, b, k - 1);
      assert w.order[k-1] in w.order;
      AdmitOneKeeps(w, table, AdmitTo(w, b, k - 1), w.order[k-1]);
    }
  }

  lemma AdmitOneKeepsCompleted(w: Plan, table: Table, b: Board, id: string, d: string)
    requires Inv(w, table, b) && id in w.steps && id in w.deps && d in w.deps && Is(b, d, Completed)
    ensures Is(AdmitOne(w, b, id), d, Completed)
  {
    assert Good(w, table, b, d);
  }

  lemma {:induction false} CompletedStays(w: Plan, table: Table, b: Board, k: nat, d: string)
    requires Valid(w) && Inv(w, table, b) && k <= |w.order| && d in w.deps && Is(b, d, Completed)
    ensures Is(AdmitTo(w, b, k), d, Completed)
  {
    if k > 0 {
      CompletedStays(w, table, b, k - 1, d);
      AdmitToKeeps(w, table, b, k - 1);
      assert w.order[k - 1] in w.order;
      AdmitOneKeepsCompleted(w, table, AdmitTo(w, b, k - 1), w.order[k - 1], d);
    }
  }

  lemma {:induction false} Lowest(ids: set<string>, rank: Graph.Ranking) returns (p: string)
    requires ids != {} && ids <= rank.Keys
    ensures p in ids && forall x <- ids :: rank[p] <= rank[x]
  {
    p :| p in ids;
    if ids != {p} {
      var q := Lowest(ids - {p}, rank);
      if rank[q] < rank[p] { p := q; }
    }
  }

  // ------------------------------------------------------------------------- stalls

  /** What a stall comes from: a pending step visited before one of its dependencies, which was
      then skipped in the same pass because of a skipped dependency of its own. */
  ghost predicate StallCause(w: Plan, table: Table, a: Board, i: nat, j: nat, e: string) {
    && i < j < |w.order|
    && w.order[i] in w.deps && w.order[j] in w.deps
    && w.order[i] in a.pending && Is(a, w.order[j], Skipped)
    && w.order[j] in w.deps[w.order[i]] && e in w.deps[w.order[j]] && IsSkip(table, e)
  }

  /** In every stalled run the last pass left a pending step behind a skipped dependency that is
      declared after it. */
  lemma StallHasCause(w: Plan, rank: Graph.Ranking, table: Table, trace: seq<Event>) returns (i: nat, j: nat, e: string)
    requires Valid(w) && Graph.Ranks(w.deps, rank) && IsReference(w, table)
    requires BoardAfter(w, trace).Some? && ExitFrom(w, BoardAfter(w, trace).value).Stalled?
    ensures StallCause(w, table, Admit(w, BoardAfter(w, trace).value), i, j, e)
  {
    var b := BoardAfter(w, trace).value;
    RunKeeps(w, table, trace);
    var p := Lowest(Admit(w, b).pending, rank);
    i, j, e := LowestPendingWaits(w, rank, table, b, p);
  }

  lemma LowestPendingWaits(w: Plan, rank: Graph.Ranking, table: Table, b: Board, p: string) returns (i: nat, j: nat, e: string)
    requires Valid(w) && Graph.Ranks(w.deps, rank) && Inv(w, table, b) && Inv(w, table, Admit(w, b))
    requires Admit(w, b).failure.None? && Admit(w, b).inflight == map[] && p in Admit(w, b).pending
    requires forall q :: q in Admit(w, b).pending ==> q in rank && p in rank && rank[p] <= rank[q]
    ensures StallCause(w, table, Admit(w, b), i, j, e)
  {
    var a := Admit(w, b);
    assert p in Elements(w.order);
    i :| 0 <= i < |w.order| && w.order[i] == p;
    var d := PendingWaited(w, b, i);
    assert rank[d] < rank[p];
    j := HasStatusByEnd(w, table, a, d);
    e := SkippedInPass(w, table, b, i, j);
  }

  lemma HasStatusByEnd(w: Plan, table: Table, a: Board, d: string) returns (j: nat)
    requires Valid(w) && Inv(w, table, a) && d in w.deps && d !in a.pending && d !in a.inflight
    ensures j < |w.order| && w.order[j] == d && d in a.state
  {
    assert d in Elements(w.order) && Good(w, table, a, d);
    j :| 0 <= j < |w.order| && w.order[j] == d;
  }

  /** A step that gains a status after index i of a pass is skipped because of a skipped dependency. */
  lemma SkippedInPass(w: Plan, table: Table, b: Board, i: nat, j: nat) returns (e: string)
    requires Valid(w) && Inv(w, table, b) && i < |w.order| && j < |w.order|
    requires Admit(w, b).failure.None?
    requires w.order[j] !in AdmitTo(w, b, i).state && w.order[j] in Admit(w, b).state
    ensures j >= i && Is(Admit(w, b), w.order[j], Skipped)
    ensures e in w.deps[w.order[j]] && IsSkip(table, e)
  {
    e := StatusGained(w, b, i, j);
    AdmitToKeeps(w, table, b, j);
    assert e in w.deps && Good(w, table, AdmitTo(w, b, j), e);
    SlotAfterVisit(w, b, j);
  }

  /** Some route targets the step, or a step it depends on, directly or not. */
  ghost predicate BehindRoute(w: Plan, rank: Graph.Ranking, id: string)
    requires Graph.Ranks(w.deps, rank) && id in w.deps
    decreases rank[id]
  {
    (exists r :: RoutesTo(w, r, id)) || exists d :: d in w.deps[id] && d in w.deps && BehindRoute(w, rank, d)
  }

  lemma {:induction false} SkipIsBehindRoute(w: Plan, rank: Graph.Ranking, table: Table, id: string)
    requires Graph.Closed(w.deps) && Graph.Ranks(w.deps, rank) && IsReference(w, table) && IsSkip(table, id)
    ensures BehindRoute(w, rank, id)
    decreases rank[id]
  {
    assert table[id] == EntryOf(w, table, id);
    var d :| d in w.deps[id] && (IsSkip(table, d) || Loses(w, table, d, id));
    if IsSkip(table, d) {
      SkipIsBehindRoute(w, rank, table, d);
    }
  }

  /** Whenever a step is declared before one of its dependencies, that dependency does not itself
      depend on anything a route can skip. */
  ghost predicate ForwardSafe(w: Plan, rank: Graph.Ranking)
    requires Graph.Ranks(w.deps, rank)
  {
    forall i, j, e :: ForwardDep(w, i, j) && e in w.deps[w.order[j]] && e in w.deps ==> !BehindRoute(w, rank, e)
  }

  ghost predicate ForwardDep(w: Plan, i: int, j: int) {
    && 0 <= i < j < |w.order| && w.order[i] in w.deps && w.order[j] in w.deps
    && w.order[j] in w.deps[w.order[i]]
  }

  /** The stall error is unreachable when every forward dependency is safe. */
  lemma NoStall(w: Plan, rank: Graph.Ranking, trace: seq<Event>)
    requires Valid(w) && Graph.Ranks(w.deps, rank) && ForwardSafe(w, rank) && BoardAfter(w, trace).Some?
    ensures !ExitFrom(w, BoardAfter(w, trace).value).Stalled?
  {
    if ExitFrom(w, BoardAfter(w, trace).value).Stalled? {
      var table := ReferenceExists(w, rank);
      var i, j, e := StallHasCause(w, rank, table, trace);
      SkipIsBehindRoute(w, rank, table, e);
      assert ForwardDep(w, i, j);
    }
  }

  ghost predicate RouterFree(w: Plan) {
    forall id :: id in w.steps ==> !w.steps[id].router
  }

  ghost predicate DeclaredInOrder(w: Plan) {
    forall i, j :: 0 <= i < j < |w.order| && w.order[i] in w.deps ==> w.order[j] !in w.deps[w.order[i]]
  }

  lemma {:induction false} RouterFreeNotBehind(w: Plan, rank: Graph.Ranking, id: string)
    requires Graph.Ranks(w.deps, rank) && RouterFree(w) && id in w.deps
    ensures !BehindRoute(w, rank, id)
    decreases rank[id]
  {
    forall d | d in w.deps[id] && d in w.deps ensures !BehindRoute(w, rank, d) {
      RouterFreeNotBehind(w, rank, d);
    }
  }

  /** In particular for router-free pipelines and for pipelines declared in dependency order. */
  lemma NoStallSimple(w: Plan, rank: Graph.Ranking, trace: seq<Event>)
    requires Valid(w) && Graph.Ranks(w.deps, rank) && BoardAfter(w, trace).Some?
    requires RouterFree(w) || DeclaredInOrder(w)
    ensures !ExitFrom(w, BoardAfter(w, trace).value).Stalled?
  {
    if RouterFree(w) {
      forall id | id in w.deps ensures !BehindRoute(w, rank, id) {
        RouterFreeNotBehind(w, rank, id);
      }
    }
    NoStall(w, rank, trace);
  }
}
