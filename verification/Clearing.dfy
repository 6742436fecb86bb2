/** Which steps the owner loop can mark as skipped while some steps are held back. */
module Clearing {
  import opened Prelude
  import opened Model
  import opened Scheduler
  import opened Reference
  import opened Runs
  import Graph
  import RunTheorems

  /** The step is decided without the held steps: a router that is not held chose another target, or a
      skipped dependency that is itself decided comes after completed ones only, none of them held. */
  ghost predicate Cleared(w: Plan, rank: Graph.Ranking, table: Table, held: set<string>, z: string)
    requires Graph.Ranks(w.deps, rank) && z in w.deps
    decreases rank[z]
  {
    || (exists r :: r !in held && Loses(w, table, r, z))
    || (exists k :: 0 <= k < |w.deps[z]| && w.deps[z][k] in w.deps && DoneBefore(w, table, held, z, k)
                    && IsSkip(table, w.deps[z][k]) && Cleared(w, rank, table, held, w.deps[z][k]))
  }

  ghost predicate DoneBefore(w: Plan, table: Table, held: set<string>, z: string, k: nat)
    requires z in w.deps && k <= |w.deps[z]|
  {
    forall j :: 0 <= j < k ==> IsDone(table, w.deps[z][j]) && w.deps[z][j] !in held
  }

  ghost predicate SkipsCleared(w: Plan, rank: Graph.Ranking, table: Table, held: set<string>, b: Board)
    requires Graph.Ranks(w.deps, rank)
  {
    forall z :: z in w.deps && Is(b, z, Skipped) ==> Cleared(w, rank, table, held, z)
  }

  /** Where a step must be skipped, the first dependency that is not completed is. */
  lemma {:induction false} SkipIndex(state: map<string, Status>, deps: seq<string>) returns (k: nat)
    requires DepStatus(state, deps) == MustSkip
    ensures k < |deps| && deps[k] in state && state[deps[k]] != Completed
    ensures forall j :: 0 <= j < k ==> deps[j] in state && state[deps[j]] == Completed
  {
    if state[deps[0]] != Completed {
      k := 0;
    } else {
      var m := SkipIndex(state, deps[1..]);
      k := m + 1;
      forall j | 0 <= j < k ensures deps[j] in state && state[deps[j]] == Completed {
        if j > 0 { assert deps[j] == deps[1..][j - 1]; }
      }
    }
  }

  /** Where it has to wait, the first dependency without a status comes after completed ones only. */
  lemma {:induction false} WaitIndex(state: map<string, Status>, deps: seq<string>) returns (k: nat)
    requires DepStatus(state, deps) == Wait
    ensures k < |deps| && deps[k] !in state
    ensures forall j :: 0 <= j < k ==> deps[j] in state && state[deps[j]] == Completed
  {
    if deps[0] !in state {
      k := 0;
    } else {
      var m := WaitIndex(state, deps[1..]);
      k := m + 1;
      forall j | 0 <= j < k ensures deps[j] in state && state[deps[j]] == Completed {
        if j > 0 { assert deps[j] == deps[1..][j - 1]; }
      }
    }
  }

  /** A step dropped while the held steps have no status is decided without them. */
  lemma DropIsCleared(w: Plan, rank: Graph.Ranking, table: Table, held: set<string>, b: Board, id: string)
    requires Valid(w) && Graph.Ranks(w.deps, rank) && Inv(w, table, b) && SkipsCleared(w, rank, table, held, b)
    requires held !! b.state.Keys && b.failure.None? && id in w.deps && DepStatus(b.state, w.deps[id]) == MustSkip
    ensures Cleared(w, rank, table, held, id)
  {
    var k := SkipIndex(b.state, w.deps[id]);
    var d := w.deps[id][k];
    assert d in w.deps && Good(w, table, b, d);
    forall j | 0 <= j < k ensures IsDone(table, w.deps[id][j]) && w.deps[id][j] !in held {
      assert w.deps[id][j] in w.deps && Good(w, table, b, w.deps[id][j]);
    }
    assert DoneBefore(w, table, held, id, k);
  }

  /** A visit marks no step but the visited one. */
  lemma AdmitOneMarks(w: Plan, b: Board, id: string, z: string)
    requires id in w.steps && id in w.deps && Is(AdmitOne(w, b, id), z, Skipped)
    ensures Is(b, z, Skipped) || (z == id && b.failure.None? && DepStatus(b.state, w.deps[id]) == MustSkip)
  {
  }

  lemma AdmitOneClears(w: Plan, rank: Graph.Ranking, table: Table, held: set<string>, b: Board, id: string)
    requires Valid(w) && Graph.Ranks(w.deps, rank) && Inv(w, table, b) && SkipsCleared(w, rank, table, held, b)
    requires held !! b.state.Keys && id in w.deps
    ensures SkipsCleared(w, rank, table, held, AdmitOne(w, b, id))
  {
    forall z | z in w.deps && Is(AdmitOne(w, b, id), z, Skipped) ensures Cleared(w, rank, table, held, z) {
      AdmitOneMarks(w, b, id, z);
      if !Is(b, z, Skipped) { DropIsCleared(w, rank, table, held, b, id); }
    }
  }

  lemma {:induction false} StatesGrow(w: Plan, b: Board, i: nat)
    requires Known(w) && i <= |w.order|
    ensures b.state.Keys <= AdmitFrom(w, b, i).state.Keys
    decreases |w.order| - i
  {
    if i < |w.order| {
      StatesGrow(w, AdmitOne(w, b, w.order[i]), i + 1);
      AdmitOneGrows(w, b, w.order[i]);
    }
  }

  lemma AdmitOneGrows(w: Plan, b: Board, id: string)
    requires id in w.steps && id in w.deps
    ensures b.state.Keys <= AdmitOne(w, b, id).state.Keys
  {
  }

  lemma {:induction false} AdmitClears(w: Plan, rank: Graph.Ranking, table: Table, held: set<string>, b: Board, i: nat)
    requires Valid(w) && Graph.Ranks(w.deps, rank) && Inv(w, table, b) && SkipsCleared(w, rank, table, held, b)
    requires i <= |w.order| && held !! AdmitFrom(w, b, i).state.Keys
    ensures SkipsCleared(w, rank, table, held, AdmitFrom(w, b, i))
    decreases |w.order| - i
  {
    if i < |w.order| {
      var id := w.order[i];
      assert id in w.order;
      var b' := AdmitOne(w, b, id);
      StatesGrow(w, b', i + 1);
      AdmitOneGrows(w, b, id);
      AdmitOneKeeps(w, table, b, id);
      AdmitOneClears(w, rank, table, held, b, id);
      AdmitClears(w, rank, table, held, b', i + 1);
    }
  }

  lemma AppliedMarks(b: Board, id: string, routes: seq<Route>, c: Completion, z: string)
    ensures z in b.state || z == id ==> z in Applied(b, id, routes, c).state
    ensures Is(Applied(b, id, routes, c), z, Skipped) && c.out.status != Skipped ==>
      Is(b, z, Skipped) || (c.out.status == Completed && c.target != "" && z in Targets(routes) && z != c.target)
  {
    SkipLosersAt(b.state[id := c.out.status], routes, c.target, z);
  }

  /** A completion marks no step but the losers of a router. */
  lemma ReceivedMarks(w: Plan, table: Table, a: Board, id: string, interrupted: bool, z: string)
    requires Valid(w) && Inv(w, table, a) && id in a.inflight && id in w.steps
    ensures z in a.state || z == id ==> z in Received(w, a, id, interrupted).state
    ensures Is(Received(w, a, id, interrupted), z, Skipped) ==> Is(a, z, Skipped) || Loses(w, table, id, z)
  {
    var c := Work(w, id, a.inflight[id], interrupted);
    AppliedMarks(a, id, w.steps[id].routes, c, z);
    assert Good(w, table, a, id);
    if c.out.status == Completed { CompletionMatches(w, table, id, a.inflight[id], interrupted); }
  }

  lemma ReceiveClears(w: Plan, rank: Graph.Ranking, table: Table, held: set<string>, a: Board, id: string, interrupted: bool)
    requires Valid(w) && Graph.Ranks(w.deps, rank) && Inv(w, table, a) && SkipsCleared(w, rank, table, held, a)
    requires id in a.inflight && id in w.steps && id !in held
    ensures SkipsCleared(w, rank, table, held, Received(w, a, id, interrupted))
  {
    forall z | z in w.deps && Is(Received(w, a, id, interrupted), z, Skipped) ensures Cleared(w, rank, table, held, z) {
      ReceivedMarks(w, table, a, id, interrupted, z);
    }
  }

  /** As long as the held steps have no status, every step marked as skipped is decided without them. */
  lemma {:induction false} RunClears(w: Plan, rank: Graph.Ranking, table: Table, held: set<string>, trace: seq<Event>)
    requires Valid(w) && Graph.Ranks(w.deps, rank) && IsReference(w, table) && BoardAfter(w, trace).Some?
    requires held !! BoardAfter(w, trace).value.state.Keys
    ensures SkipsCleared(w, rank, table, held, BoardAfter(w, trace).value)
  {
    if trace != [] {
      var n := |trace| - 1;
      RunTheorems.LastEvent(w, trace);
      RunKeeps(w, table, trace[..n]);
      var b, e := BoardAfter(w, trace[..n]).value, trace[n];
      var a := Admit(w, b);
      assert Good(w, table, a, e.id);
      forall x | x in a.state || x == e.id ensures x in BoardAfter(w, trace).value.state {
        ReceivedMarks(w, table, a, e.id, e.interrupted, x);
      }
      StatesGrow(w, b, 0);
      RunClears(w, rank, table, held, trace[..n]);
      AdmitClears(w, rank, table, held, b, 0);
      ReceiveClears(w, rank, table, held, a, e.id, e.interrupted);
    }
  }

  lemma PassClears(w: Plan, rank: Graph.Ranking, table: Table, held: set<string>, trace: seq<Event>)
    requires Valid(w) && Graph.Ranks(w.deps, rank) && IsReference(w, table) && BoardAfter(w, trace).Some?
    requires held !! Admit(w, BoardAfter(w, trace).value).state.Keys
    ensures SkipsCleared(w, rank, table, held, Admit(w, BoardAfter(w, trace).value))
  {
    var b := BoardAfter(w, trace).value;
    StatesGrow(w, b, 0);
    RunKeeps(w, table, trace);
    RunClears(w, rank, table, held, trace);
    AdmitClears(w, rank, table, held, b, 0);
  }
}
