/** Submit, Enqueue, RequeueOrphans and run (internal/engine/worker.go), each shown to be a run of the
    pool's protocol. Store outcomes are parameters. */
module WorkerCalls {
  import opened Prelude
  import opened Jobs
  import opened WorkerPool

  datatype SubmitError = CreateFailed | QueueFull

  /** The states a run passes through. */
  ghost predicate Walk(states: seq<Pool>, trace: seq<Action>) {
    && |states| == |trace| + 1
    && forall i {:trigger trace[i]} :: 0 <= i < |trace| ==> Enabled(states[i], trace[i]) && states[i + 1] == Apply(states[i], trace[i])
  }

  /** `q` is reached from `p` by the protocol steps `trace`. */
  ghost predicate Reaches(p: Pool, trace: seq<Action>, q: Pool) {
    exists states :: Walk(states, trace) && states[0] == p && states[|trace|] == q
  }

  lemma {:induction false} WalkIsRun(states: seq<Pool>, trace: seq<Action>)
    requires Walk(states, trace)
    ensures Allowed(states[0], trace) && Ran(states[0], trace) == states[|trace|]
  {
    if trace != [] {
      var rest, tail := states[1..], trace[1..];
      forall i | 0 <= i < |tail| ensures Enabled(rest[i], tail[i]) && rest[i + 1] == Apply(rest[i], tail[i]) {
        assert tail[i] == trace[i + 1] && rest[i] == states[i + 1] && rest[i + 1] == states[i + 2];
      }
      WalkIsRun(rest, tail);
      assert trace[0] == trace[0] && rest[0] == states[1];
    }
  }

  /** A call that reaches a state is a run of the protocol. */
  lemma ReachedIsRun(p: Pool, trace: seq<Action>, q: Pool)
    requires Reaches(p, trace, q)
    ensures Allowed(p, trace) && Ran(p, trace) == q
  {
    var states :| Walk(states, trace) && states[0] == p && states[|trace|] == q;
    WalkIsRun(states, trace);
  }

  lemma Start(p: Pool)
    ensures Reaches(p, [], p)
  {
    assert Walk([p], []);
  }

  lemma Extend(p: Pool, trace: seq<Action>, q: Pool, act: Action)
    requires Reaches(p, trace, q) && Enabled(q, act)
    ensures Reaches(p, trace + [act], Apply(q, act))
  {
    var states :| Walk(states, trace) && states[0] == p && states[|trace|] == q;
    var longer, more := states + [Apply(q, act)], trace + [act];
    forall i | 0 <= i < |more| ensures Enabled(longer[i], more[i]) && longer[i + 1] == Apply(longer[i], more[i]) {
      if i == |trace| {
        assert more[i] == act && longer[i] == q && longer[i + 1] == Apply(q, act);
      } else {
        assert more[i] == trace[i] && longer[i] == states[i] && longer[i + 1] == states[i + 1];
      }
    }
    assert Walk(longer, more);
  }

  /** No job outside `ids` differs between the two stores. */
  ghost predicate SameOutside(a: map<Id, Status>, b: map<Id, Status>, ids: set<Id>) {
    forall x :: x !in ids ==> (x in a <==> x in b) && (x in a ==> a[x] == b[x])
  }

  /** The first n of the jobs are PENDING. */
  ghost predicate FirstPending(store: map<Id, Status>, jobs: seq<Id>, n: nat) {
    n <= |jobs| && forall j :: 0 <= j < n ==> jobs[j] in store && store[jobs[j]] == Pending
  }

  lemma ResetOne(before: map<Id, Status>, store: map<Id, Status>, jobs: seq<Id>, i: nat, fault: Fault)
    requires i < |jobs| && SameOutside(store, before, set x <- jobs) && FirstPending(store, jobs, i)
    ensures SameOutside(Written(store, jobs[i], Pending, fault), before, set x <- jobs)
    ensures FirstPending(Written(store, jobs[i], Pending, fault), jobs, i)
    ensures fault.Fine? ==> FirstPending(Written(store, jobs[i], Pending, fault), jobs, i + 1)
  {
    assert jobs[i] in jobs;
  }

  /** n turns of the requeue loop: a reset and a send each. */
  function Turns(n: nat): seq<Action> {
    if n == 0 then [] else Turns(n - 1) + [Reset(Fine), Requeue]
  }

  class JobPool {
    var store: map<Id, Status>
    const cap: nat
    var queue: seq<Id>
    var tally: Tally
    ghost var ran: multiset<Id>

    /** The protocol state, given where the callers and workers stand. */
    ghost function View(hands: seq<Hand>, sends: map<nat, Id>, phase: Phase): Pool
      reads this
    {
      Pool(store, cap, queue, hands, sends, phase, ran, tally)
    }

    constructor (store: map<Id, Status>, cap: nat)
      ensures this.store == store && this.cap == cap && queue == [] && ran == multiset{} && tally == Tally(0, 0, 0, 0, 0, 0)
    {
      this.store, this.cap, queue, ran, tally := store, cap, [], multiset{}, Tally(0, 0, 0, 0, 0, 0);
    }

    method CreateJob(id: Id, st: Status, fault: Fault) returns (ok: bool)
      modifies this`store
      ensures ok <==> id !in old(store) && fault.Fine?
      ensures store == if id in old(store) then old(store) else Written(old(store), id, st, fault)
    {
      if id in store { return false; }
      if !fault.Refused? { store := store[id := st]; }
      ok := fault.Fine?;
    }

    method SetJobStatus(id: Id, st: Status, fault: Fault) returns (ok: bool)
      modifies this`store
      ensures ok <==> fault.Fine?
      ensures store == Written(old(store), id, st, fault)
    {
      if !fault.Refused? { store := store[id := st]; }
      ok := fault.Fine?;
    }

    /** The non-blocking send. */
    method Enqueue(id: Id) returns (ok: bool)
      modifies this`queue
      ensures ok <==> |old(queue)| < cap
      ensures queue == if ok then old(queue) + [id] else old(queue)
    {
      ok := |queue| < cap;
      if ok { queue := queue + [id]; }
    }

    method Submit(id: Id, st: Option<Status>, fault: Fault, ghost k: nat, ghost hands: seq<Hand>, ghost sends: map<nat, Id>)
      returns (r: Result<(), SubmitError>, ghost steps: seq<Action>)
      requires k !in sends
      modifies this
      ensures Reaches(old(View(hands, sends, Serving)), steps, View(hands, sends, Serving))
      ensures var create := Create(k, id, if st.None? then Pending else st.value, fault);
              steps == if id in old(store) || !fault.Fine? then [create] else [create, Send(k)]
      ensures SameOutside(store, old(store), {id})
      ensures r == if id in old(store) || !fault.Fine? then Err(CreateFailed)
                   else if |old(queue)| < cap then Ok(()) else Err(QueueFull)
      ensures r.Ok? ==> id in queue
      ensures !r.Ok? ==> queue == old(queue)
      ensures r == Err(QueueFull) ==> id in store && store[id] == (if st.None? then Pending else st.value)
    {
      var status := if st.None? then Pending else st.value;
      ghost var p := View(hands, sends, Serving);
      steps := [];
      Start(p);
      Extend(p, steps, p, Create(k, id, status, fault));
      steps := steps + [Create(k, id, status, fault)];
      var ok := CreateJob(id, status, fault);
      if !ok {
        return Err(CreateFailed), steps;
      }
      tally := tally.(submitted := tally.submitted + 1);
      ghost var q := View(hands, sends[k := id], Serving);
      Extend(p, steps, q, Send(k));
      steps := steps + [Send(k)];
      assert sends[k := id] - {k} == sends;
      var sent := Enqueue(id);
      if sent { return Ok(()), steps; }
      tally := tally.(rejected := tally.rejected + 1);
      return Err(QueueFull), steps;
    }

    /** Stops at the first reset that fails; `turns` jobs were reset before that, or all of them. */
    method RequeueOrphans(jobs: seq<Id>, faults: seq<Fault>, ghost hands: seq<Hand>)
      returns (n: nat, ok: bool, ghost turns: nat, ghost steps: seq<Action>)
      requires |faults| == |jobs|
      modifies this
      ensures Reaches(old(View(hands, map[], Requeueing(jobs))), steps, View(hands, map[], Serving))
      ensures turns <= |jobs| && forall j :: 0 <= j < turns ==> faults[j].Fine?
      ensures if turns < |jobs| then !ok && !faults[turns].Fine? else ok
      ensures steps == Turns(turns) + [Reset(if ok then Fine else faults[turns])]
      ensures SameOutside(store, old(store), set x <- jobs) && FirstPending(store, jobs, turns)
      ensures tally.requeued == old(tally.requeued) + n && |queue| == |old(queue)| + n
      ensures n == Fitting(|old(queue)|, turns)
    {
      ghost var p := View(hands, map[], Requeueing(jobs));
      n, steps := 0, [];
      Start(p);
      assert jobs[0..] == jobs;
      for i := 0 to |jobs|
        invariant Reaches(p, steps, View(hands, map[], Requeueing(jobs[i..]))) && steps == Turns(i)
        invariant SameOutside(store, old(store), set x <- jobs) && FirstPending(store, jobs, i)
        invariant forall j :: 0 <= j < i ==> faults[j].Fine?
        invariant tally.requeued == old(tally.requeued) + n && |queue| == |old(queue)| + n
        invariant n == Fitting(|old(queue)|, i)
      {
        assert jobs[i..] == [jobs[i]] + jobs[i + 1..];
        ResetOne(old(store), store, jobs, i, faults[i]);
        var reset, sent;
        reset, sent, steps := RequeueOne(jobs[i], faults[i], hands, jobs[i + 1..], p, steps);
        if !reset { return n, false, i, steps; }
        if sent { n := n + 1; }
      }
      assert jobs[|jobs|..] == [];
      Extend(p, steps, View(hands, map[], Requeueing([])), Reset(Fine));
      steps := steps + [Reset(Fine)];
      ok, turns := true, |jobs|;
    }

    /** How many of `turns` jobs a queue of length `len` has room for. */
    function Fitting(len: nat, turns: nat): nat {
      if len + turns <= cap then turns else if cap < len then 0 else cap - len
    }

    /** One turn of the requeue loop. */
    method RequeueOne(job: Id, fault: Fault, ghost hands: seq<Hand>, ghost rest: seq<Id>, ghost p: Pool, ghost done: seq<Action>)
      returns (reset: bool, sent: bool, ghost steps: seq<Action>)
      requires Reaches(p, done, View(hands, map[], Requeueing([job] + rest)))
      modifies this
      ensures reset <==> fault.Fine?
      ensures store == Written(old(store), job, Pending, fault)
      ensures reset ==> steps == done + [Reset(fault), Requeue] && Reaches(p, steps, View(hands, map[], Requeueing(rest)))
      ensures !reset ==> steps == done + [Reset(fault)] && Reaches(p, steps, View(hands, map[], Serving))
      ensures sent <==> reset && |old(queue)| < cap
      ensures |queue| == |old(queue)| + if sent then 1 else 0
      ensures tally.requeued == old(tally.requeued) + if sent then 1 else 0
    {
      assert ([job] + rest)[0] == job && ([job] + rest)[1..] == rest;
      Extend(p, done, View(hands, map[], Requeueing([job] + rest)), Reset(fault));
      steps := done + [Reset(fault)];
      reset := SetJobStatus(job, Pending, fault);
      sent := false;
      if !reset { return; }
      Extend(p, steps, View(hands, map[], Enqueueing(job, rest)), Requeue);
      steps := steps + [Requeue];
      assert done + [Reset(fault)] + [Requeue] == done + [Reset(fault), Requeue];
      sent := Enqueue(job);
      if sent { tally := tally.(requeued := tally.requeued + 1); }
    }

    /** One job, from the ticket a worker took to its final status. */
    method Run(id: Id, load: Fault, mark: Fault, outcome: bool, finish: Fault,
               ghost w: nat, ghost hands: seq<Hand>, ghost sends: map<nat, Id>, ghost phase: Phase)
      returns (executed: bool, ghost steps: seq<Action>)
      requires w < |hands| && hands[w] == Loading(id)
      modifies this
      ensures Reaches(old(View(hands, sends, phase)), steps, View(hands[w := Idle], sends, phase))
      ensures steps == if !load.Fine? || id !in old(store) || old(store)[id] != Pending then [Load(w, load)]
                       else if !mark.Fine? then [Load(w, load), Mark(w, mark)]
                       else [Load(w, load), Mark(w, mark), Finish(w, outcome, finish)]
      ensures SameOutside(store, old(store), {id})
      ensures executed <==> load.Fine? && id in old(store) && old(store)[id] == Pending && mark.Fine?
      ensures executed && finish.Fine? ==> id in store && store[id] == (if outcome then Completed else Failed)
      ensures id in old(store) && old(store)[id] != Pending ==> store == old(store)
    {
      ghost var p := View(hands, sends, phase);
      Start(p);
      Extend(p, [], p, Load(w, load));
      steps := [] + [Load(w, load)];
      if !load.Fine? || id !in store || store[id] != Pending {
        tally := tally.(dropped := tally.dropped + 1);
        return false, steps;
      }
      executed, steps := Execute(id, mark, outcome, finish, w, hands[w := Marking(id)], sends, phase, p, steps);
      assert hands[w := Marking(id)][w := Idle] == hands[w := Idle];
    }

    method Execute(id: Id, mark: Fault, outcome: bool, finish: Fault, ghost w: nat, ghost hands: seq<Hand>,
                   ghost sends: map<nat, Id>, ghost phase: Phase, ghost p: Pool, ghost done: seq<Action>)
      returns (executed: bool, ghost steps: seq<Action>)
      requires w < |hands| && hands[w] == Marking(id) && Reaches(p, done, View(hands, sends, phase))
      modifies this
      ensures Reaches(p, steps, View(hands[w := Idle], sends, phase))
      ensures steps == done + if mark.Fine? then [Mark(w, mark), Finish(w, outcome, finish)] else [Mark(w, mark)]
      ensures SameOutside(store, old(store), {id})
      ensures executed <==> mark.Fine?
      ensures executed && finish.Fine? ==> id in store && store[id] == (if outcome then Completed else Failed)
    {
      Extend(p, done, View(hands, sends, phase), Mark(w, mark));
      steps := done + [Mark(w, mark)];
      executed := SetJobStatus(id, Running, mark);
      if !executed {
        tally := tally.(dropped := tally.dropped + 1);
        return false, steps;
      }
      ran := ran + multiset{id};
      steps := Conclude(id, outcome, finish, w, hands[w := Executing(id)], sends, phase, p, steps);
      assert done + [Mark(w, mark)] + [Finish(w, outcome, finish)] == done + [Mark(w, mark), Finish(w, outcome, finish)];
      assert hands[w := Executing(id)][w := Idle] == hands[w := Idle];
    }

    method Conclude(id: Id, outcome: bool, finish: Fault, ghost w: nat, ghost hands: seq<Hand>,
                    ghost sends: map<nat, Id>, ghost phase: Phase, ghost p: Pool, ghost done: seq<Action>)
      returns (ghost steps: seq<Action>)
      requires w < |hands| && hands[w] == Executing(id) && Reaches(p, done, View(hands, sends, phase))
      modifies this
      ensures Reaches(p, steps, View(hands[w := Idle], sends, phase))
      ensures steps == done + [Finish(w, outcome, finish)]
      ensures store == Written(old(store), id, if outcome then Completed else Failed, finish)
    {
      Extend(p, done, View(hands, sends, phase), Finish(w, outcome, finish));
      steps := done + [Finish(w, outcome, finish)];
      if !outcome {
        tally := tally.(failed := tally.failed + 1);
        var _ := SetJobStatus(id, Failed, finish);
        return steps;
      }
      tally := tally.(completed := tally.completed + 1);
      var _ := SetJobStatus(id, Completed, finish);
    }
  }
}
