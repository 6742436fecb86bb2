/** What the worker pool promises over every interleaving of its steps, across restarts. */
module WorkerLaws {
  import opened Prelude
  import opened Jobs
  import opened WorkerPool

  lemma {:induction false} RunKeeps(p: Pool, trace: seq<Action>)
    requires Inv(p) && Allowed(p, trace)
    ensures Inv(Ran(p, trace))
    decreases |trace|
  {
    if trace != [] {
      StepKeeps(p, trace[0]);
      RunKeeps(Apply(p, trace[0]), trace[1..]);
    }
  }

  /** Whatever the store holds when a process starts: in every state of every interleaving no session
      is twice in the queue or in workers' hands, and none is executed twice by one process. */
  lemma AtMostOnce(p: Pool, found: Option<seq<Id>>, trace: seq<Action>)
    requires Enabled(p, Restart(found)) && Allowed(Apply(p, Restart(found)), trace)
    ensures var q := Ran(Apply(p, Restart(found)), trace);
            Unique(q) && forall id :: q.ran[id] <= 1
  {
    RestartKeeps(p, Restart(found));
    RunKeeps(Apply(p, Restart(found)), trace);
    var q := Ran(Apply(p, Restart(found)), trace);
    forall id ensures q.ran[id] <= 1 { assert RanOk(q, id); }
  }

  // ------------------------------------------------------------- final statuses

  /** A status other than PENDING and RUNNING. */
  ghost predicate Final(p: Pool, id: Id) {
    id in p.store && !p.store[id].Pending? && !p.store[id].Running?
  }

  lemma FinalStays(p: Pool, act: Action, id: Id)
    requires Inv(p) && Enabled(p, act) && Final(p, id)
    ensures Final(Apply(p, act), id) && Apply(p, act).store[id] == p.store[id]
  {
    if Internal(act) && At(p, Actor(p, act)) == Some(id) {
      assert HeldOk(p, Actor(p, act), id);
    } else if Internal(act) {
      WritesOwn(p, act, id);
    }
  }

  /** COMPLETED and FAILED are never overwritten, not even by a later process. */
  lemma {:induction false} FinalForever(p: Pool, trace: seq<Action>, id: Id)
    requires Inv(p) && Allowed(p, trace) && Final(p, id)
    ensures id in Ran(p, trace).store && Ran(p, trace).store[id] == p.store[id]
    decreases |trace|
  {
    if trace != [] {
      FinalStays(p, trace[0], id);
      StepKeeps(p, trace[0]);
      FinalForever(Apply(p, trace[0]), trace[1..], id);
    }
  }

  // --------------------------------------------------------------- conservation

  ghost function Total(hands: seq<Hand>, f: Hand -> nat): nat {
    if hands == [] then 0 else f(hands[0]) + Total(hands[1..], f)
  }

  lemma {:induction false} TotalUpdate(hands: seq<Hand>, f: Hand -> nat, w: nat, h: Hand)
    requires w < |hands|
    ensures Total(hands[w := h], f) + f(hands[w]) == Total(hands, f) + f(h)
  {
    if w == 0 {
      assert hands[w := h][1..] == hands[1..];
    } else {
      TotalUpdate(hands[1..], f, w - 1, h);
      assert hands[w := h][1..] == hands[1..][w - 1 := h];
    }
  }

  lemma {:induction false} TotalIdle(n: nat, f: Hand -> nat)
    requires f(Idle) == 0
    ensures Total(seq(n, _ => Idle), f) == 0
  {
    if n != 0 {
      assert seq(n, _ => Idle)[1..] == seq(n - 1, _ => Idle);
      TotalIdle(n - 1, f);
    }
  }

  ghost function Busy(): Hand -> nat { (h: Hand) => if h.Idle? then 0 else 1 }

  /** Every ticket ever issued is accounted for. */
  ghost predicate Balanced(p: Pool) {
    p.tally.submitted + p.tally.requeued ==
      p.tally.completed + p.tally.failed + |p.queue| + Total(p.hands, Busy()) + |p.sends| + p.tally.rejected + p.tally.dropped
  }

  lemma BalancedHand(p: Pool, act: Action)
    requires Enabled(p, act) && Balanced(p) && (act.Load? || act.Mark? || act.Finish?)
    ensures Balanced(Apply(p, act))
  {
    var w := act.w;
    TotalUpdate(p.hands, Busy(), w, Apply(p, act).hands[w]);
  }

  lemma BalancedQueue(p: Pool, act: Action)
    requires Enabled(p, act) && Balanced(p) && (act.Send? || act.Requeue? || act.Take?)
    ensures Balanced(Apply(p, act))
  {
    match act
    case Send(k) => assert p.sends == (p.sends - {k})[k := p.sends[k]];
    case Requeue =>
    case Take(w) => TotalUpdate(p.hands, Busy(), w, Loading(p.queue[0]));
  }

  lemma BalancedOther(p: Pool, act: Action)
    requires Enabled(p, act) && Balanced(p) && (act.Create? || act.Reset? || act.Restart?)
    ensures Balanced(Apply(p, act))
  {
    if act.Restart? { TotalIdle(|p.hands|, Busy()); }
  }

  lemma BalancedStep(p: Pool, act: Action)
    requires Enabled(p, act) && Balanced(p)
    ensures Balanced(Apply(p, act))
  {
    if act.Load? || act.Mark? || act.Finish? {
      BalancedHand(p, act);
    } else if act.Send? || act.Requeue? || act.Take? {
      BalancedQueue(p, act);
    } else {
      BalancedOther(p, act);
    }
  }

  /** submitted + requeued = completed + failed + queued + in hand + being sent + rejected + dropped,
      in every state of every run. */
  lemma {:induction false} Conservation(p: Pool, trace: seq<Action>)
    requires Balanced(p) && Allowed(p, trace)
    ensures Balanced(Ran(p, trace))
    decreases |trace|
  {
    if trace != [] {
      BalancedStep(p, trace[0]);
      Conservation(Apply(p, trace[0]), trace[1..]);
    }
  }

  // --------------------------------------------------------------- stranded jobs

  /** A PENDING job nobody holds a ticket for. */
  ghost predicate Stranded(p: Pool, id: Id) {
    id in p.store && p.store[id].Pending? && forall a :: At(p, a) != Some(id)
  }

  lemma StrandedStays(p: Pool, act: Action, id: Id)
    requires Enabled(p, act) && Stranded(p, id)
    ensures Stranded(Apply(p, act), id)
  {
    var q := Apply(p, act);
    if Internal(act) {
      WritesOwn(p, act, id);
      forall a ensures At(q, a) != Some(id) {
        if At(q, a).Some? { TicketsMove(p, act, a); }
      }
    } else {
      forall a ensures At(q, a) != Some(id) {
        assert act.Create? ==> At(q, a) == At(p, a) || a == InSend(act.k);
      }
    }
  }

  /** A stranded job stays PENDING for ever, whatever is submitted and however often the process restarts. */
  lemma {:induction false} StrandedForever(p: Pool, trace: seq<Action>, id: Id)
    requires Allowed(p, trace) && Stranded(p, id)
    ensures Stranded(Ran(p, trace), id)
    decreases |trace|
  {
    if trace != [] {
      StrandedStays(p, trace[0], id);
      StrandedForever(Apply(p, trace[0]), trace[1..], id);
    }
  }

  /** A job turned away by a full queue, at Submit or at the startup requeue, is stranded at once. */
  lemma RejectedIsStranded(p: Pool, act: Action, id: Id)
    requires Inv(p) && Enabled(p, act) && (act.Send? || act.Requeue?) && p.cap <= |p.queue|
    requires At(p, Actor(p, act)) == Some(id) && id in p.store && p.store[id].Pending?
    ensures Stranded(Apply(p, act), id)
  {
    var q := Apply(p, act);
    forall a ensures At(q, a) != Some(id) {
      if At(q, a).Some? { TicketsMove(p, act, a); }
    }
  }

  /** A new process picks up exactly the RUNNING jobs ... */
  lemma RestartTicketsIff(p: Pool, found: seq<Id>, id: Id)
    requires Enabled(p, Restart(Some(found)))
    ensures (exists a :: At(Apply(p, Restart(Some(found))), a) == Some(id)) <==> id in p.store && p.store[id].Running?
  {
    var q := Apply(p, Restart(Some(found)));
    if id in p.store && p.store[id].Running? {
      var i :| 0 <= i < |found| && found[i] == id;
      assert At(q, InTodo(i)) == Some(id);
    }
    forall a | At(q, a) == Some(id) ensures id in p.store && p.store[id].Running? {
      assert a.InTodo? && id in found;
    }
  }

  /** ... so every job that was PENDING when the process died is stranded, even one that was queued. */
  lemma RestartStrandsPending(p: Pool, found: Option<seq<Id>>, trace: seq<Action>, id: Id)
    requires Enabled(p, Restart(found)) && id in p.store && p.store[id].Pending?
    requires Allowed(Apply(p, Restart(found)), trace)
    ensures Stranded(Ran(Apply(p, Restart(found)), trace), id)
  {
    var q := Apply(p, Restart(found));
    forall a ensures At(q, a) != Some(id) {
      if found.Some? { RestartTicketsIff(p, found.value, id); }
    }
    StrandedForever(q, trace, id);
  }

  // ------------------------------------------------------------------- progress

  ghost function Weight(): Hand -> nat {
    (h: Hand) => match h case Idle => 0 case Executing(_) => 1 case Marking(_) => 2 case Loading(_) => 3
  }

  ghost function PhaseWork(ph: Phase): nat {
    match ph
    case Serving => 0
    case Requeueing(todo) => 1 + 6 * |todo|
    case Enqueueing(_, todo) => 6 + 6 * |todo|
  }

  /** Steps the pool still has to take on the tickets it has. */
  ghost function Work(p: Pool): nat {
    PhaseWork(p.phase) + 5 * |p.sends| + 4 * |p.queue| + Total(p.hands, Weight())
  }

  lemma HandDecreases(p: Pool, act: Action)
    requires Enabled(p, act) && (act.Load? || act.Mark? || act.Finish?)
    ensures Work(Apply(p, act)) < Work(p)
  {
    TotalUpdate(p.hands, Weight(), act.w, Apply(p, act).hands[act.w]);
  }

  lemma WorkDecreases(p: Pool, act: Action)
    requires Enabled(p, act) && Internal(act)
    ensures Work(Apply(p, act)) < Work(p)
  {
    match act
    case Send(k) => assert p.sends == (p.sends - {k})[k := p.sends[k]];
    case Reset(_) =>
    case Requeue =>
    case Take(w) => TotalUpdate(p.hands, Weight(), w, Loading(p.queue[0]));
    case Load(_, _) => HandDecreases(p, act);
    case Mark(_, _) => HandDecreases(p, act);
    case Finish(_, _, _) => HandDecreases(p, act);
  }

  /** Left alone, the pool comes to rest within Work(p) steps. */
  lemma {:induction false} RunIsBounded(p: Pool, trace: seq<Action>)
    requires Allowed(p, trace) && forall act <- trace :: Internal(act)
    ensures |trace| + Work(Ran(p, trace)) <= Work(p)
    decreases |trace|
  {
    if trace != [] {
      WorkDecreases(p, trace[0]);
      RunIsBounded(Apply(p, trace[0]), trace[1..]);
    }
  }

  lemma {:induction false} SomeBusy(hands: seq<Hand>) returns (w: nat)
    requires Total(hands, Weight()) > 0
    ensures w < |hands| && !hands[w].Idle?
  {
    if !hands[0].Idle? { return 0; }
    var v := SomeBusy(hands[1..]);
    return v + 1;
  }

  /** With at least one worker, work left means some step can be taken. */
  lemma NeverStuck(p: Pool) returns (act: Action)
    requires |p.hands| > 0 && Work(p) > 0
    ensures Internal(act) && Enabled(p, act)
  {
    if p.phase.Requeueing? { return Reset(Fine); }
    if p.phase.Enqueueing? { return Requeue; }
    if p.sends != map[] { var k :| k in p.sends; return Send(k); }
    if Total(p.hands, Weight()) > 0 {
      var w := SomeBusy(p.hands);
      return match p.hands[w] case Loading(_) => Load(w, Fine) case Marking(_) => Mark(w, Fine) case _ => Finish(w, true, Fine);
    }
    TotalUpdate(p.hands, Weight(), 0, Idle);
    return Take(0);
  }

  ghost predicate FaultFree(act: Action) {
    match act
    case Load(_, fault) => fault.Fine?
    case Mark(_, fault) => fault.Fine?
    case Finish(_, _, fault) => fault.Fine?
    case Restart(_) => false
    case _ => true
  }

  /** A job that is queued or in a worker's hands with the status that place calls for, or is done. */
  ghost predicate OnItsWay(p: Pool, id: Id) {
    && id in p.store
    && (|| p.store[id].Completed? || p.store[id].Failed?
        || exists a :: At(p, a) == Some(id) && Held(p, a, id))
  }

  ghost predicate Held(p: Pool, a: Place, id: Id)
    requires At(p, a) == Some(id)
  {
    && id in p.store
    && match a
       case InQueue(_) => p.store[id].Pending?
       case InHand(w) => if p.hands[w].Executing? then p.store[id].Running? else p.store[id].Pending?
       case _ => false
  }

  lemma StaysOnItsWay(p: Pool, act: Action, id: Id)
    requires Inv(p) && Enabled(p, act) && FaultFree(act) && OnItsWay(p, id)
    ensures OnItsWay(Apply(p, act), id)
  {
    if p.store[id].Completed? || p.store[id].Failed? {
      FinalStays(p, act, id);
    } else {
      var a :| At(p, a) == Some(id) && Held(p, a, id);
      if act.Create? {
        assert At(Apply(p, act), a) == At(p, a);
      } else if a == Actor(p, act) {
        OwnMove(p, act, id);
      } else {
        OtherMove(p, act, a, id);
      }
    }
  }

  /** A job moves on when its own holder acts ... */
  lemma OwnMove(p: Pool, act: Action, id: Id)
    requires Enabled(p, act) && Internal(act) && FaultFree(act)
    requires At(p, Actor(p, act)) == Some(id) && Held(p, Actor(p, act), id)
    ensures OnItsWay(Apply(p, act), id)
  {
    var q := Apply(p, act);
    var b := if act.Take? then InHand(act.w) else Actor(p, act);
    assert act.Finish? || (At(q, b) == Some(id) && Held(q, b, id));
  }

  /** ... and stays put, or moves up the queue, when another does. */
  lemma OtherMove(p: Pool, act: Action, a: Place, id: Id)
    requires Inv(p) && Enabled(p, act) && Internal(act)
    requires At(p, a) == Some(id) && Held(p, a, id) && a != Actor(p, act)
    ensures OnItsWay(Apply(p, act), id)
  {
    var q := Apply(p, act);
    WritesOwn(p, act, id);
    if act.Take? && a.InQueue? {
      assert At(q, InQueue(a.i - 1)) == Some(id) && Held(q, InQueue(a.i - 1), id);
    } else {
      assert At(q, a) == Some(id) && Held(q, a, id);
    }
  }

  lemma {:induction false} KeepsOnItsWay(p: Pool, trace: seq<Action>, id: Id)
    requires Inv(p) && Allowed(p, trace) && (forall act <- trace :: FaultFree(act)) && OnItsWay(p, id)
    ensures OnItsWay(Ran(p, trace), id)
    decreases |trace|
  {
    if trace != [] {
      StaysOnItsWay(p, trace[0], id);
      StepKeeps(p, trace[0]);
      KeepsOnItsWay(Apply(p, trace[0]), trace[1..], id);
    }
  }

  /** Without store errors or a crash, a job once queued is COMPLETED or FAILED when the pool comes to
      rest, whatever else is submitted meanwhile. */
  lemma QueuedJobsFinish(p: Pool, trace: seq<Action>, id: Id)
    requires Inv(p) && Allowed(p, trace) && (forall act <- trace :: FaultFree(act))
    requires id in p.queue && id in p.store && p.store[id].Pending? && Work(Ran(p, trace)) == 0
    ensures id in Ran(p, trace).store && (Ran(p, trace).store[id].Completed? || Ran(p, trace).store[id].Failed?)
  {
    var i :| 0 <= i < |p.queue| && p.queue[i] == id;
    assert At(p, InQueue(i)) == Some(id) && Held(p, InQueue(i), id);
    KeepsOnItsWay(p, trace, id);
    AtRestNoneHeld(Ran(p, trace));
  }

  lemma AtRestNoneHeld(p: Pool)
    requires Work(p) == 0
    ensures forall a :: At(p, a) == None
  {
    forall w | 0 <= w < |p.hands| ensures p.hands[w].Idle? {
      TotalUpdate(p.hands, Weight(), w, Idle);
    }
  }
}
