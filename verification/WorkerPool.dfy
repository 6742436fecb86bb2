/** The worker pool (internal/engine/worker.go) as a protocol of atomic steps. Callers of Submit, the
    startup requeue and the workers share the store and the bounded queue; their steps interleave freely. */
module WorkerPool {
  import opened Prelude
  import opened Jobs

  type Id = string

  /** How a store call ends: it succeeds, fails without effect, or fails after taking effect. */
  datatype Fault = Fine | Refused | Unsure

  /** What a worker is about to do with the session it took. */
  datatype Hand = Idle | Loading(id: Id) | Marking(id: Id) | Executing(id: Id)

  /** The startup requeue runs before the process serves requests. */
  datatype Phase = Requeueing(todo: seq<Id>) | Enqueueing(id: Id, todo: seq<Id>) | Serving

  datatype Tally = Tally(submitted: nat, requeued: nat, completed: nat, failed: nat, rejected: nat, dropped: nat)

  datatype Pool = Pool(
    store: map<Id, Status>,
    cap: nat,
    queue: seq<Id>,
    hands: seq<Hand>,
    sends: map<nat, Id>,     // Submit calls between CreateJob and the queue
    phase: Phase,
    ran: multiset<Id>,       // executions begun by this process
    tally: Tally)

  datatype Action =
    | Create(k: nat, id: Id, st: Status, fault: Fault)  // Submit: CreateJob
    | Send(k: nat)                                      // Submit: the non-blocking send
    | Reset(fault: Fault)                               // RequeueOrphans: SetJobStatus PENDING, or the end of its loop
    | Requeue                                           // RequeueOrphans: Enqueue
    | Take(w: nat)                                      // a worker receives from the queue
    | Load(w: nat, fault: Fault)                        // run: GetJob and the status test
    | Mark(w: nat, fault: Fault)                        // run: SetJobStatus RUNNING
    | Finish(w: nat, ok: bool, fault: Fault)            // run: execute and the final SetJobStatus
    | Restart(found: Option<seq<Id>>)                   // the process dies, a new one lists RUNNING jobs

  function Written(store: map<Id, Status>, id: Id, st: Status, fault: Fault): map<Id, Status> {
    if fault.Refused? then store else store[id := st]
  }

  ghost predicate Enabled(p: Pool, a: Action) {
    match a
    case Create(k, _, _, _) => p.phase.Serving? && k !in p.sends
    case Send(k) => k in p.sends
    case Reset(_) => p.phase.Requeueing?
    case Requeue => p.phase.Enqueueing?
    case Take(w) => w < |p.hands| && p.hands[w].Idle? && p.queue != []
    case Load(w, _) => w < |p.hands| && p.hands[w].Loading?
    case Mark(w, _) => w < |p.hands| && p.hands[w].Marking?
    case Finish(w, _, _) => w < |p.hands| && p.hands[w].Executing?
    case Restart(found) =>
      found.Some? ==>
        && NoDup(found.value)
        && (forall id <- found.value :: id in p.store && p.store[id] == Running)
        && (forall id <- p.store :: p.store[id] == Running ==> id in found.value)
  }

  function Drop(p: Pool, w: nat): Pool
    requires w < |p.hands|
  {
    p.(hands := p.hands[w := Idle], tally := p.tally.(dropped := p.tally.dropped + 1))
  }

  ghost function Apply(p: Pool, a: Action): Pool
    requires Enabled(p, a)
  {
    match a
    case Create(k, id, st, fault) =>
      if id in p.store then p
      else if fault.Fine? then
        p.(store := p.store[id := st], sends := p.sends[k := id], tally := p.tally.(submitted := p.tally.submitted + 1))
      else p.(store := Written(p.store, id, st, fault))
    case Send(k) =>
      if |p.queue| < p.cap then p.(queue := p.queue + [p.sends[k]], sends := p.sends - {k})
      else p.(sends := p.sends - {k}, tally := p.tally.(rejected := p.tally.rejected + 1))
    case Reset(fault) =>
      var todo := p.phase.todo;
      if todo == [] then p.(phase := Serving)
      else p.(store := Written(p.store, todo[0], Pending, fault),
              phase := if fault.Fine? then Enqueueing(todo[0], todo[1..]) else Serving)
    case Requeue =>
      var next := p.(phase := Requeueing(p.phase.todo));
      if |p.queue| < p.cap
      then next.(queue := p.queue + [p.phase.id], tally := p.tally.(requeued := p.tally.requeued + 1))
      else next
    case Take(w) => p.(queue := p.queue[1..], hands := p.hands[w := Loading(p.queue[0])])
    case Load(w, fault) =>
      var id := p.hands[w].id;
      if fault.Fine? && id in p.store && p.store[id] == Pending then p.(hands := p.hands[w := Marking(id)])
      else Drop(p, w)
    case Mark(w, fault) =>
      var id := p.hands[w].id;
      var q := p.(store := Written(p.store, id, Running, fault));
      if fault.Fine? then q.(hands := p.hands[w := Executing(id)], ran := p.ran + multiset{id})
      else Drop(q, w)
    case Finish(w, ok, fault) =>
      var id := p.hands[w].id;
      p.(store := Written(p.store, id, if ok then Completed else Failed, fault),
         hands := p.hands[w := Idle],
         tally := if ok then p.tally.(completed := p.tally.completed + 1) else p.tally.(failed := p.tally.failed + 1))
    case Restart(found) => Boot(p.store, p.cap, |p.hands|, found)
  }

  /** A new process over the jobs in `store`; `found` is None when listing them failed. */
  function Boot(store: map<Id, Status>, cap: nat, workers: nat, found: Option<seq<Id>>): Pool {
    Pool(store, cap, [], seq(workers, _ => Idle), map[],
         if found.Some? then Requeueing(found.value) else Serving,
         multiset{}, Tally(0, 0, 0, 0, 0, 0))
  }

  ghost predicate Allowed(p: Pool, trace: seq<Action>)
    decreases |trace|
  {
    trace != [] ==> Enabled(p, trace[0]) && Allowed(Apply(p, trace[0]), trace[1..])
  }

  ghost function Ran(p: Pool, trace: seq<Action>): Pool
    requires Allowed(p, trace)
    decreases |trace|
  {
    if trace == [] then p else Ran(Apply(p, trace[0]), trace[1..])
  }

  // ---------------------------------------------------------------------- tickets

  /** Where a session's ticket can be. */
  datatype Place = InTodo(i: nat) | InReset | InSend(k: nat) | InQueue(i: nat) | InHand(w: nat)

  function At(p: Pool, a: Place): Option<Id> {
    match a
    case InTodo(i) => if !p.phase.Serving? && i < |p.phase.todo| then Some(p.phase.todo[i]) else None
    case InReset => if p.phase.Enqueueing? then Some(p.phase.id) else None
    case InSend(k) => if k in p.sends then Some(p.sends[k]) else None
    case InQueue(i) => if i < |p.queue| then Some(p.queue[i]) else None
    case InHand(w) => if w < |p.hands| && !p.hands[w].Idle? then Some(p.hands[w].id) else None
  }

  /** No session has two tickets. */
  ghost predicate Unique(p: Pool) {
    forall a, b {:trigger At(p, a), At(p, b)} :: At(p, a).Some? && At(p, a) == At(p, b) ==> a == b
  }

  /** What the store says of a session with a ticket at `a`. */
  ghost predicate HeldOk(p: Pool, a: Place, id: Id)
    requires At(p, a) == Some(id)
  {
    && id in p.store
    && (a.InTodo? ==> p.store[id] == Running)
    && (a.InReset? ==> p.store[id] == Pending)
    && (a.InHand? && p.hands[a.w].Marking? ==> p.store[id] == Pending)
    && (a.InHand? && p.hands[a.w].Executing? ==> p.store[id] == Running)
  }

  /** A session this process has executed is stored, and its only ticket is the executing worker's. */
  ghost predicate RanOk(p: Pool, id: Id) {
    && p.ran[id] <= 1
    && (id in p.ran ==> id in p.store)
    && (id in p.ran ==> forall a :: At(p, a) == Some(id) ==> a.InHand? && p.hands[a.w].Executing?)
  }

  ghost predicate Inv(p: Pool) {
    && Unique(p)
    && (forall a :: At(p, a).Some? ==> HeldOk(p, a, At(p, a).value))
    && (forall id :: RanOk(p, id))
  }

  ghost predicate Internal(a: Action) { !a.Create? && !a.Restart? }

  /** Where the ticket found at `a` after a step was before it. */
  function Origin(p: Pool, act: Action, a: Place): Place {
    match act
    case Send(k) => if a == InQueue(|p.queue|) then InSend(k) else a
    case Requeue => if a == InQueue(|p.queue|) then InReset else a
    case Reset(_) => if a.InReset? then InTodo(0) else if a.InTodo? then InTodo(a.i + 1) else a
    case Take(w) => if a == InHand(w) then InQueue(0) else if a.InQueue? then InQueue(a.i + 1) else a
    case _ => a
  }

  lemma TicketsMove(p: Pool, act: Action, a: Place)
    requires Enabled(p, act) && Internal(act) && At(Apply(p, act), a).Some?
    ensures At(p, Origin(p, act, a)) == At(Apply(p, act), a)
  {
  }

  lemma OriginInjective(p: Pool, act: Action, a: Place, b: Place)
    requires Enabled(p, act) && Internal(act) && Origin(p, act, a) == Origin(p, act, b)
    requires At(Apply(p, act), a).Some? && At(Apply(p, act), b).Some?
    ensures a == b
  {
  }

  /** The place whose holder acts. */
  ghost function Actor(p: Pool, act: Action): Place
    requires Internal(act)
  {
    match act
    case Send(k) => InSend(k)
    case Reset(_) => InTodo(0)
    case Requeue => InReset
    case Take(w) => InQueue(0)
    case Load(w, _) => InHand(w)
    case Mark(w, _) => InHand(w)
    case Finish(w, _, _) => InHand(w)
  }

  /** A step changes the status of no session but the one its actor holds. */
  lemma WritesOwn(p: Pool, act: Action, id: Id)
    requires Enabled(p, act) && Internal(act) && At(p, Actor(p, act)) != Some(id)
    ensures id in Apply(p, act).store <==> id in p.store
    ensures id in p.store ==> Apply(p, act).store[id] == p.store[id]
  {
  }

  lemma UniqueKept(p: Pool, act: Action)
    requires Unique(p) && Enabled(p, act) && Internal(act)
    ensures Unique(Apply(p, act))
  {
    var q := Apply(p, act);
    forall a, b | At(q, a).Some? && At(q, a) == At(q, b) ensures a == b {
      TicketsMove(p, act, a);
      TicketsMove(p, act, b);
      OriginInjective(p, act, a, b);
    }
  }

  lemma HeldKept(p: Pool, act: Action, a: Place)
    requires Inv(p) && Enabled(p, act) && Internal(act) && At(Apply(p, act), a).Some?
    ensures HeldOk(Apply(p, act), a, At(Apply(p, act), a).value)
  {
    var q := Apply(p, act);
    var id, from := At(q, a).value, Origin(p, act, a);
    TicketsMove(p, act, a);
    assert HeldOk(p, from, id);
    if from != Actor(p, act) {
      assert At(p, Actor(p, act)) != Some(id);
      WritesOwn(p, act, id);
    }
  }

  lemma RanKept(p: Pool, act: Action, id: Id)
    requires Inv(p) && Enabled(p, act) && Internal(act)
    ensures RanOk(Apply(p, act), id)
  {
    var q := Apply(p, act);
    assert RanOk(p, id);
    var actor := Actor(p, act);
    if act.Mark? && At(p, actor) == Some(id) {
      assert HeldOk(p, actor, id);
    }
    forall a | id in q.ran && At(q, a) == Some(id) ensures a.InHand? && q.hands[a.w].Executing? {
      TicketsMove(p, act, a);
      assert act.Mark? && At(p, actor) == Some(id) ==> Origin(p, act, a) == actor;
    }
  }

  lemma InternalKeeps(p: Pool, act: Action)
    requires Inv(p) && Enabled(p, act) && Internal(act)
    ensures Inv(Apply(p, act))
  {
    UniqueKept(p, act);
    forall a | At(Apply(p, act), a).Some? ensures HeldOk(Apply(p, act), a, At(Apply(p, act), a).value) { HeldKept(p, act, a); }
    forall id ensures RanOk(Apply(p, act), id) { RanKept(p, act, id); }
  }

  lemma CreateKeeps(p: Pool, act: Action)
    requires Inv(p) && Enabled(p, act) && act.Create?
    ensures Inv(Apply(p, act))
  {
    var q := Apply(p, act);
    forall a | At(q, a).Some? ensures At(q, a) == if act.fault.Fine? && act.id !in p.store && a == InSend(act.k) then Some(act.id) else At(p, a) {}
    forall a | At(q, a).Some? ensures HeldOk(q, a, At(q, a).value) {
      if At(p, a).Some? { assert HeldOk(p, a, At(p, a).value); }
    }
    forall a | At(p, a).Some? ensures At(p, a) != Some(act.id) || q == p {
      assert HeldOk(p, a, At(p, a).value);
    }
    forall id ensures RanOk(q, id) {
      assert RanOk(p, id);
    }
  }

  lemma RestartKeeps(p: Pool, act: Action)
    requires Enabled(p, act) && act.Restart?
    ensures Inv(Apply(p, act))
  {
    var q := Apply(p, act);
    forall a | At(q, a).Some? ensures a.InTodo? && HeldOk(q, a, At(q, a).value) {}
  }

  lemma StepKeeps(p: Pool, act: Action)
    requires Inv(p) && Enabled(p, act)
    ensures Inv(Apply(p, act))
  {
    if Internal(act) {
      InternalKeeps(p, act);
    } else if act.Create? {
      CreateKeeps(p, act);
    } else {
      RestartKeeps(p, act);
    }
  }
}
