/** The worker pool (internal/engine/worker.go) on top of the Redis store (internal/store/redis/redis.go),
    one Redis command at a time. Every write the pool makes is a call of several commands, and the
    commands of all open calls interleave with the pool's own steps, errors and crashes. */
module PoolOverRedis {
  import opened Prelude
  import opened Decimal
  import opened Jobs
  import opened RedisModel
  import opened RedisStore
  import opened WorkerPool
  import R = RedisRuns
  import RedisCalls
  import WorkerLaws

  /** `calls` says which step of the pool each open Redis call carries out. */
  datatype System = System(pool: Pool, redis: R.Sys, calls: map<nat, Action>)

  datatype Move =
    | Local(act: Action)                                         // a step without a store call
    | Read(w: nat, ok: bool)                                     // GetJob: one HGETALL
    | Open(c: nat, act: Action, job: Job)                        // a write begins
    | Command(c: nat, now: string, clock: int, lost: bool)       // its next command; the last reply may get lost
    | GiveUp(c: nat)                                             // it fails before its transaction
    | Crash(found: Option<seq<Id>>)                              // the process dies; a new one lists RUNNING jobs

  // ---------------------------------------------------------------- writes and actors

  /** The step writes to the store. */
  ghost predicate IsWrite(p: Pool, act: Action) {
    act.Create? || act.Mark? || act.Finish? || (act.Reset? && p.phase.Requeueing? && p.phase.todo != [])
  }

  ghost predicate IsLocal(p: Pool, act: Action) {
    act.Send? || act.Requeue? || act.Take? || (act.Reset? && p.phase.Requeueing? && p.phase.todo == [])
  }

  function WithFault(act: Action, fault: Fault): Action {
    match act
    case Create(k, id, st, _) => Create(k, id, st, fault)
    case Reset(_) => Reset(fault)
    case Mark(w, _) => Mark(w, fault)
    case Finish(w, ok, _) => Finish(w, ok, fault)
    case _ => act
  }

  /** The caller behind a write: a Submit call, the startup requeue, or a worker. */
  function Caller(act: Action): Place {
    match act
    case Create(k, _, _, _) => InSend(k)
    case Mark(w, _) => InHand(w)
    case Finish(w, _, _) => InHand(w)
    case _ => InTodo(0)
  }

  /** The session a write is about and the status it writes. */
  ghost function Target(p: Pool, act: Action): (Id, Status)
    requires Enabled(p, act) && IsWrite(p, act)
  {
    match act
    case Create(_, id, st, _) => (id, st)
    case Reset(_) => (p.phase.todo[0], Pending)
    case Mark(w, _) => (p.hands[w].id, Running)
    case Finish(w, ok, _) => (p.hands[w].id, if ok then Completed else Failed)
  }

  ghost function FirstOp(p: Pool, act: Action, job: Job): R.Op
    requires Enabled(p, act) && IsWrite(p, act)
  {
    var (id, st) := Target(p, act);
    if act.Create? then R.Creating(job.(sessionId := id, status := Some(st)))
    else R.Setting(R.Write(id, st, job.result, job.error))
  }

  /** A step that is enabled is taken. */
  ghost function Do(p: Pool, act: Action): Pool {
    if Enabled(p, act) then Apply(p, act) else p
  }

  // ------------------------------------------------------------------------ the moves

  ghost predicate Possible(pfx: string, s: System, m: Move) {
    match m
    case Local(act) => IsLocal(s.pool, act) && Enabled(s.pool, act)
    case Read(w, ok) => Enabled(s.pool, Load(w, if ok then Fine else Refused))
    case Open(c, act, job) =>
      && c !in s.calls && Enabled(s.pool, act) && IsWrite(s.pool, act)
      && forall d :: d in s.calls ==> Caller(s.calls[d]) != Caller(act)
    case Command(c, _, _, _) => c in s.calls
    case GiveUp(c) => c in s.calls
    case Crash(found) => found.Some? ==> RedisCalls.IsRange(IndexOf(pfx, s.redis.db, Running), found.value)
  }

  /** What the pool learns when call c ends on the command `op` stood before. */
  function Verdict(op: R.Op, lost: bool): Fault {
    if op.Claimed? || op.Loaded? then (if lost then Unsure else Fine) else Refused
  }

  ghost function After(pfx: string, s: System, m: Move): System {
    match m
    case Local(act) => s.(pool := Do(s.pool, act))
    case Read(w, ok) => s.(pool := Do(s.pool, Load(w, if ok then Fine else Refused)))
    case Open(c, act, job) =>
      if Enabled(s.pool, act) && IsWrite(s.pool, act)
      then System(s.pool, R.After(pfx, s.redis, R.Begin(c, FirstOp(s.pool, act, job))), s.calls[c := act])
      else s
    case Command(c, now, clock, lost) =>
      if c !in s.calls || c !in s.redis.ops then s
      else
        var next := R.After(pfx, s.redis, R.Step(c, now, clock));
        if c in next.ops then s.(redis := next)
        else System(Do(s.pool, WithFault(s.calls[c], Verdict(s.redis.ops[c], lost))), next, s.calls - {c})
    case GiveUp(c) =>
      if c !in s.calls then s
      else System(Do(s.pool, WithFault(s.calls[c], Refused)), R.After(pfx, s.redis, R.Abandon(c)), s.calls - {c})
    case Crash(found) => System(Do(s.pool, Restart(found)), R.Sys(s.redis.db, map[]), map[])
  }

  // -------------------------------------------------------------------- the invariant

  /** The hashes hold exactly the statuses the pool's protocol keeps. */
  ghost predicate Matches(pfx: string, store: map<Id, Status>, db: Db) {
    forall id, st :: HasStatus(pfx, db, id, st) <==> id in store && store[id] == st
  }

  /** The open call is for a step its caller can still take, on that step's session and status. */
  ghost predicate CallOk(p: Pool, act: Action, op: R.Op) {
    && Enabled(p, act) && IsWrite(p, act)
    && var (id, st) := Target(p, act);
       if act.Create? then
         && (op.Creating? || op.Numbered? || op.Claimed?)
         && op.job.sessionId == id && op.job.status == Some(st)
       else
         && (op.Setting? || op.Missed? || op.Loaded?)
         && op.write.id == id && op.write.st == st
  }

  ghost predicate Inv(pfx: string, s: System) {
    && R.Inv(pfx, s.redis) && WorkerPool.Inv(s.pool) && Matches(pfx, s.pool.store, s.redis.db)
    && s.calls.Keys == s.redis.ops.Keys
    && (forall c :: c in s.calls ==> CallOk(s.pool, s.calls[c], s.redis.ops[c]))
    && (forall c, d :: c in s.calls && d in s.calls && c != d ==> Caller(s.calls[c]) != Caller(s.calls[d]))
  }

  /** A write to an existing job is made by the one who holds its ticket. */
  lemma WriterHolds(p: Pool, act: Action)
    requires Enabled(p, act) && IsWrite(p, act) && !act.Create?
    ensures At(p, Caller(act)) == Some(Target(p, act).0)
  {
  }

  /** A step by one caller leaves the open write of another as it was. */
  lemma WriteStays(p: Pool, act: Action, other: Action)
    requires Enabled(p, act) && IsWrite(p, act) && Enabled(p, other) && !other.Restart?
    requires IsWrite(p, other) ==> Caller(other) != Caller(act)
    ensures Enabled(Apply(p, other), act) && IsWrite(Apply(p, other), act) && Target(Apply(p, other), act) == Target(p, act)
  {
  }

  /** Whoever opens a write, nobody else has one open on that session, and the session is complete. */
  lemma OpenNoOverlap(pfx: string, s: System, c: nat, act: Action, job: Job)
    requires Inv(pfx, s) && Possible(pfx, s, Open(c, act, job))
    ensures R.NoOverlap(pfx, s.redis, R.Begin(c, FirstOp(s.pool, act, job)))
  {
    if !act.Create? {
      var id := Target(s.pool, act).0;
      WriterHolds(s.pool, act);
      assert HeldOk(s.pool, Caller(act), id);
      assert HasStatus(pfx, s.redis.db, id, s.pool.store[id]);
      forall d | d in s.redis.ops ensures R.Writes(s.redis.ops[d]) != Some(id) {
        OpenWriter(pfx, s, d, id);
        if !s.calls[d].Create? { WriterHolds(s.pool, s.calls[d]); }
      }
    }
  }

  /** An open write of a session is its creator's, before the session has a status, or its ticket holder's. */
  lemma OpenWriter(pfx: string, s: System, d: nat, id: Id)
    requires Inv(pfx, s) && d in s.redis.ops
    ensures R.Writes(s.redis.ops[d]) == Some(id) ==>
      if s.calls[d].Create? then HalfMade(pfx, s.redis.db, id) else Target(s.pool, s.calls[d]).0 == id
  {
    assert CallOk(s.pool, s.calls[d], s.redis.ops[d]) && R.OpOk(pfx, s.redis.db, s.redis.ops[d]);
  }

  lemma StoredIsComplete(pfx: string, s: System, id: Id)
    requires Inv(pfx, s) && id in s.pool.store
    ensures "session_id" in HashOf(pfx, s.redis.db, id) && !HalfMade(pfx, s.redis.db, id)
  {
    assert HasStatus(pfx, s.redis.db, id, s.pool.store[id]);
    assert SoundHash(pfx, s.redis.db, id);
  }

  /** A claim succeeds only on a session nobody is writing. */
  lemma ClaimNoOverlap(pfx: string, s: System, c: nat, now: string, clock: int)
    requires Inv(pfx, s) && c in s.redis.ops
    ensures R.NoOverlap(pfx, s.redis, R.Step(c, now, clock))
  {
    var op := s.redis.ops[c];
    if R.Claims(pfx, s.redis.db, op) {
      var id := op.job.sessionId;
      forall d | d in s.redis.ops ensures R.Writes(s.redis.ops[d]) != Some(id) {
        OpenWriter(pfx, s, d, id);
        if !s.calls[d].Create? {
          assert CallOk(s.pool, s.calls[d], s.redis.ops[d]);
          WriterHolds(s.pool, s.calls[d]);
          assert HeldOk(s.pool, Caller(s.calls[d]), Target(s.pool, s.calls[d]).0);
          StoredIsComplete(pfx, s, Target(s.pool, s.calls[d]).0);
        }
      }
    }
  }

  // --------------------------------------------------------------- every move keeps it

  lemma LocalStays(p: Pool, act: Action, call: Action, op: R.Op)
    requires Enabled(p, act) && (IsLocal(p, act) || act.Load?) && CallOk(p, call, op)
    ensures CallOk(Apply(p, act), call, op)
  {
    WriteStays(p, call, act);
  }

  lemma LocalStores(p: Pool, act: Action)
    requires Enabled(p, act) && (IsLocal(p, act) || act.Load?)
    ensures Apply(p, act).store == p.store
  {
  }

  lemma LocalKeeps(pfx: string, s: System, act: Action, next: System)
    requires Inv(pfx, s) && Enabled(s.pool, act) && (IsLocal(s.pool, act) || act.Load?)
    requires next.pool == Apply(s.pool, act) && next.redis == s.redis && next.calls == s.calls
    ensures Inv(pfx, next)
  {
    StepKeeps(s.pool, act);
    LocalStores(s.pool, act);
    forall c | c in s.calls ensures CallOk(next.pool, s.calls[c], s.redis.ops[c]) {
      LocalStays(s.pool, act, s.calls[c], s.redis.ops[c]);
    }
  }

  lemma OpenKeeps(pfx: string, s: System, c: nat, act: Action, job: Job, next: System)
    requires Inv(pfx, s) && Possible(pfx, s, Open(c, act, job)) && next == After(pfx, s, Open(c, act, job))
    ensures Inv(pfx, next)
  {
    OpenNoOverlap(pfx, s, c, act, job);
    R.StepKeeps(pfx, s.redis, R.Begin(c, FirstOp(s.pool, act, job)));
    forall d | d in next.calls ensures CallOk(next.pool, next.calls[d], next.redis.ops[d]) {
      assert d != c ==> CallOk(s.pool, s.calls[d], s.redis.ops[d]);
    }
  }

  /** What a write does to the pool's store. */
  lemma WriteStores(p: Pool, act: Action, fault: Fault)
    requires Enabled(p, act) && IsWrite(p, act)
    ensures Enabled(p, WithFault(act, fault)) && IsWrite(p, WithFault(act, fault)) && Caller(WithFault(act, fault)) == Caller(act)
    ensures var (id, st) := Target(p, act);
            Apply(p, WithFault(act, fault)).store ==
              if fault.Refused? || (act.Create? && id in p.store) then p.store else p.store[id := st]
  {
  }

  /** The invariant when call c ends. */
  lemma EndKeeps(pfx: string, s: System, c: nat, fault: Fault, next: System)
    requires Inv(pfx, s) && c in s.calls && R.Inv(pfx, next.redis) && next.redis.ops == s.redis.ops - {c}
    requires next.pool == Do(s.pool, WithFault(s.calls[c], fault)) && next.calls == s.calls - {c}
    requires Matches(pfx, next.pool.store, next.redis.db)
    ensures Inv(pfx, next)
  {
    var act := s.calls[c];
    assert CallOk(s.pool, act, s.redis.ops[c]);
    WriteStores(s.pool, act, fault);
    StepKeeps(s.pool, WithFault(act, fault));
    forall d | d in s.calls && d != c ensures CallOk(next.pool, s.calls[d], s.redis.ops[d]) {
      assert CallOk(s.pool, s.calls[d], s.redis.ops[d]);
      WriteStays(s.pool, s.calls[d], WithFault(act, fault));
    }
  }

  lemma RefusedStores(s: System, c: nat)
    requires c in s.calls && c in s.redis.ops && CallOk(s.pool, s.calls[c], s.redis.ops[c])
    ensures Do(s.pool, WithFault(s.calls[c], Refused)).store == s.pool.store
  {
    WriteStores(s.pool, s.calls[c], Refused);
  }

  lemma AbandonedInv(pfx: string, sys: R.Sys, c: nat, next: R.Sys)
    requires R.Inv(pfx, sys) && next == R.Sys(sys.db, sys.ops - {c})
    ensures R.Inv(pfx, next)
  {
  }

  lemma GiveUpKeeps(pfx: string, s: System, c: nat, next: System)
    requires Inv(pfx, s) && c in s.calls
    requires next == System(Do(s.pool, WithFault(s.calls[c], Refused)), R.Sys(s.redis.db, s.redis.ops - {c}), s.calls - {c})
    ensures Inv(pfx, next)
  {
    RefusedStores(s, c);
    AbandonedInv(pfx, s.redis, c, next.redis);
    EndKeeps(pfx, s, c, Refused, next);
  }

  /** The create transaction gives its session exactly its status ... */
  lemma CreateMatches(pfx: string, store: map<Id, Status>, db: Db, job: Job, num: Int64, now: string)
    requires Typed(pfx, db) && Matches(pfx, store, db)
    ensures Matches(pfx, store[job.sessionId := Effective(job.status)], CommitCreate(pfx, db, job, num, now))
  {
    var d, id := CommitCreate(pfx, db, job, num, now), job.sessionId;
    CommitCreateView(pfx, db, job, num, now);
    CreatedHash(pfx, db, job, num, now);
    forall x, st | x != id ensures HasStatus(pfx, d, x, st) <==> HasStatus(pfx, db, x, st) {}
  }

  /** ... and so does the status transaction. */
  lemma SetMatches(pfx: string, store: map<Id, Status>, db: Db, w: R.Write, was: string, score: string, now: string, clock: int)
    requires Agree(pfx, db) && Matches(pfx, store, db) && R.OpOk(pfx, db, R.Loaded(w, was, score))
    ensures Matches(pfx, store[w.id := w.st], CommitSet(pfx, db, w.id, w.st, w.result, w.error, was, score, now, clock))
  {
    assert SoundHash(pfx, db, w.id);
    var old' :| HasStatus(pfx, db, w.id, old');
    var d := CommitSet(pfx, db, w.id, w.st, w.result, w.error, was, score, now, clock);
    CommitSetView(pfx, db, w.id, w.st, w.result, w.error, old', score, StoredSeq(pfx, db, w.id).value, now, clock);
    SetHash(pfx, db, d, w.id, w.st, w.result, w.error, now);
    forall x, st | x != w.id ensures HasStatus(pfx, d, x, st) <==> HasStatus(pfx, db, x, st) {}
  }

  /** Every other command leaves all statuses alone. */
  lemma OtherCommandMatches(pfx: string, store: map<Id, Status>, db: Db, op: R.Op, now: string, clock: int)
    requires Agree(pfx, db) && Matches(pfx, store, db) && !op.Claimed? && !op.Loaded?
    ensures Matches(pfx, store, R.Advance(pfx, db, op, now, clock).0)
  {
    var d := R.Advance(pfx, db, op, now, clock).0;
    if op.Creating? && Incr(db, SeqKey(pfx)).Some? {
      IncrView(pfx, db);
    } else if R.Claims(pfx, db, op) {
      var id := op.job.sessionId;
      HSetView(pfx, db, id, map["session_id" := id]);
    }
    forall x, st ensures HasStatus(pfx, d, x, st) <==> HasStatus(pfx, db, x, st) {}
  }

  lemma CommitMatches(pfx: string, s: System, c: nat, now: string, clock: int, fault: Fault)
    requires Inv(pfx, s) && c in s.calls && (s.redis.ops[c].Claimed? || s.redis.ops[c].Loaded?) && !fault.Refused?
    ensures Matches(pfx, Do(s.pool, WithFault(s.calls[c], fault)).store, R.Advance(pfx, s.redis.db, s.redis.ops[c], now, clock).0)
  {
    var act, op, db := s.calls[c], s.redis.ops[c], s.redis.db;
    assert CallOk(s.pool, act, op) && R.OpOk(pfx, db, op);
    WriteStores(s.pool, act, fault);
    if op.Claimed? {
      if op.job.sessionId in s.pool.store { StoredIsComplete(pfx, s, op.job.sessionId); }
      CreateMatches(pfx, s.pool.store, db, op.job, op.num, now);
    } else {
      SetMatches(pfx, s.pool.store, db, op.write, op.was, op.score, now, clock);
    }
  }

  /** A call that goes on stays the same call. */
  lemma CallGoesOn(pfx: string, p: Pool, act: Action, db: Db, op: R.Op, now: string, clock: int)
    requires CallOk(p, act, op) && R.Advance(pfx, db, op, now, clock).1.Some?
    ensures CallOk(p, act, R.Advance(pfx, db, op, now, clock).1.value)
  {
  }

  lemma CommandGoesOn(pfx: string, s: System, c: nat, now: string, clock: int, next: System)
    requires Inv(pfx, s) && c in s.calls && R.Advance(pfx, s.redis.db, s.redis.ops[c], now, clock).1.Some?
    requires next == s.(redis := R.After(pfx, s.redis, R.Step(c, now, clock))) && R.Inv(pfx, next.redis)
    ensures Inv(pfx, next)
  {
    var op := s.redis.ops[c];
    assert CallOk(s.pool, s.calls[c], op);
    OtherCommandMatches(pfx, s.pool.store, s.redis.db, op, now, clock);
    CallGoesOn(pfx, s.pool, s.calls[c], s.redis.db, op, now, clock);
    forall d | d in s.calls ensures CallOk(s.pool, s.calls[d], next.redis.ops[d]) {
      assert d != c ==> CallOk(s.pool, s.calls[d], s.redis.ops[d]);
    }
  }

  lemma LastCommandMatches(pfx: string, s: System, c: nat, now: string, clock: int, lost: bool)
    requires Inv(pfx, s) && c in s.calls
    requires R.Advance(pfx, s.redis.db, s.redis.ops[c], now, clock).1.None?
    ensures Matches(pfx, Do(s.pool, WithFault(s.calls[c], Verdict(s.redis.ops[c], lost))).store,
                    R.Advance(pfx, s.redis.db, s.redis.ops[c], now, clock).0)
  {
    var op := s.redis.ops[c];
    if op.Claimed? || op.Loaded? {
      CommitMatches(pfx, s, c, now, clock, Verdict(op, lost));
    } else {
      assert CallOk(s.pool, s.calls[c], op);
      OtherCommandMatches(pfx, s.pool.store, s.redis.db, op, now, clock);
      WriteStores(s.pool, s.calls[c], Refused);
    }
  }

  lemma CommandKeeps(pfx: string, s: System, c: nat, now: string, clock: int, lost: bool, next: System)
    requires Inv(pfx, s) && c in s.calls && next == After(pfx, s, Command(c, now, clock, lost))
    ensures Inv(pfx, next)
  {
    ClaimNoOverlap(pfx, s, c, now, clock);
    R.StepKeeps(pfx, s.redis, R.Step(c, now, clock));
    if R.Advance(pfx, s.redis.db, s.redis.ops[c], now, clock).1.Some? {
      CommandGoesOn(pfx, s, c, now, clock, next);
    } else {
      LastCommandMatches(pfx, s, c, now, clock, lost);
      EndKeeps(pfx, s, c, Verdict(s.redis.ops[c], lost), next);
    }
  }

  /** The listing a new process starts from is exactly the RUNNING jobs. */
  lemma ListingEnabled(pfx: string, s: System, found: Option<seq<Id>>)
    requires Inv(pfx, s) && Possible(pfx, s, Crash(found))
    ensures Enabled(s.pool, Restart(found))
  {
    if found.Some? {
      forall id ensures id in IndexOf(pfx, s.redis.db, Running) <==> id in s.pool.store && s.pool.store[id] == Running {
        assert AgreeAt(pfx, s.redis.db, id);
      }
      assert NoDup(found.value);
    }
  }

  lemma CrashKeeps(pfx: string, s: System, found: Option<seq<Id>>, next: System)
    requires Inv(pfx, s) && Possible(pfx, s, Crash(found)) && next == After(pfx, s, Crash(found))
    ensures Inv(pfx, next)
  {
    ListingEnabled(pfx, s, found);
    StepKeeps(s.pool, Restart(found));
  }

  /** The step of the pool's protocol a move completes, if any. */
  ghost function PoolStep(pfx: string, s: System, m: Move): Option<Action> {
    match m
    case Local(act) => Some(act)
    case Read(w, ok) => Some(Load(w, if ok then Fine else Refused))
    case Open(_, _, _) => None
    case Command(c, now, clock, lost) =>
      if c !in s.calls || c !in s.redis.ops || c in R.After(pfx, s.redis, R.Step(c, now, clock)).ops then None
      else Some(WithFault(s.calls[c], Verdict(s.redis.ops[c], lost)))
    case GiveUp(c) => if c in s.calls then Some(WithFault(s.calls[c], Refused)) else None
    case Crash(found) => Some(Restart(found))
  }

  lemma MoveKeeps(pfx: string, s: System, m: Move, next: System)
    requires Inv(pfx, s) && Possible(pfx, s, m) && next == After(pfx, s, m)
    ensures Inv(pfx, next)
  {
    match m
    case Local(act) => LocalKeeps(pfx, s, act, next);
    case Read(w, ok) => LocalKeeps(pfx, s, Load(w, if ok then Fine else Refused), next);
    case Open(c, act, job) => OpenKeeps(pfx, s, c, act, job, next);
    case Command(c, now, clock, lost) => CommandKeeps(pfx, s, c, now, clock, lost, next);
    case GiveUp(c) => GiveUpKeeps(pfx, s, c, next);
    case Crash(found) => CrashKeeps(pfx, s, found, next);
  }

  /** Seen from the pool, a move is one step of its protocol, or none. */
  lemma MoveRefines(pfx: string, s: System, m: Move)
    requires Inv(pfx, s) && Possible(pfx, s, m)
    ensures var act := PoolStep(pfx, s, m);
            if act.None? then After(pfx, s, m).pool == s.pool
            else Enabled(s.pool, act.value) && After(pfx, s, m).pool == Apply(s.pool, act.value)
  {
    match m
    case Command(c, _, _, lost) =>
      assert CallOk(s.pool, s.calls[c], s.redis.ops[c]);
      WriteStores(s.pool, s.calls[c], Verdict(s.redis.ops[c], lost));
    case GiveUp(c) =>
      assert CallOk(s.pool, s.calls[c], s.redis.ops[c]);
      WriteStores(s.pool, s.calls[c], Refused);
    case Crash(found) => ListingEnabled(pfx, s, found);
    case _ =>
  }

  // ----------------------------------------------------------------------- whole runs

  ghost predicate Runs(pfx: string, s: System, moves: seq<Move>)
    decreases |moves|
  {
    moves != [] ==> Possible(pfx, s, moves[0]) && Runs(pfx, After(pfx, s, moves[0]), moves[1..])
  }

  ghost function End(pfx: string, s: System, moves: seq<Move>): System
    decreases |moves|
  {
    if moves == [] then s else End(pfx, After(pfx, s, moves[0]), moves[1..])
  }

  /** Every run of the pool over Redis, command by command, is a run of the pool's protocol, and keeps
      the invariant. */
  lemma {:induction false} RunRefines(pfx: string, s: System, moves: seq<Move>) returns (trace: seq<Action>)
    requires Inv(pfx, s) && Runs(pfx, s, moves)
    ensures Inv(pfx, End(pfx, s, moves))
    ensures Allowed(s.pool, trace) && Ran(s.pool, trace) == End(pfx, s, moves).pool
    decreases |moves|
  {
    if moves == [] {
      trace := [];
    } else {
      var act := PoolStep(pfx, s, moves[0]);
      var next := After(pfx, s, moves[0]);
      MoveKeeps(pfx, s, moves[0], next);
      MoveRefines(pfx, s, moves[0]);
      var rest := RunRefines(pfx, next, moves[1..]);
      if act.None? {
        trace := rest;
      } else {
        trace := [act.value] + rest;
        assert trace[1..] == rest;
      }
    }
  }

  /** A process on an empty Redis. */
  ghost function Fresh(cap: nat, workers: nat): System {
    System(Boot(map[], cap, workers, Some([])), R.Sys(map[], map[]), map[])
  }

  lemma FreshInv(pfx: string, cap: nat, workers: nat)
    ensures Inv(pfx, Fresh(cap, workers))
  {
    R.EmptyInv(pfx);
    var p := Boot(map[], cap, workers, None);
    assert Enabled(p, Restart(Some([])));
    RestartKeeps(p, Restart(Some([])));
    assert Apply(p, Restart(Some([]))) == Fresh(cap, workers).pool;
  }

  /** The whole system, from an empty Redis, over every interleaving of its commands, with store errors
      at any point, lost replies and crashes: index and hashes agree, they hold what the pool's protocol
      says, no session is queued or held twice, and no process executes one twice. Nothing is assumed
      about writes not overlapping: the tickets see to it. */
  lemma SystemAgrees(pfx: string, cap: nat, workers: nat, moves: seq<Move>)
    requires Runs(pfx, Fresh(cap, workers), moves)
    ensures var end := End(pfx, Fresh(cap, workers), moves);
            && (forall id :: AgreeAt(pfx, end.redis.db, id)) && DistinctSeqs(pfx, end.redis.db)
            && Matches(pfx, end.pool.store, end.redis.db)
            && Unique(end.pool) && forall id :: end.pool.ran[id] <= 1
  {
    FreshInv(pfx, cap, workers);
    var trace := RunRefines(pfx, Fresh(cap, workers), moves);
    var end := End(pfx, Fresh(cap, workers), moves);
    forall id ensures end.pool.ran[id] <= 1 { assert RanOk(end.pool, id); }
  }

  /** In Redis, too, a final status is never overwritten. */
  lemma FinalInRedis(pfx: string, s: System, moves: seq<Move>, id: Id, st: Status)
    requires Inv(pfx, s) && Runs(pfx, s, moves) && HasStatus(pfx, s.redis.db, id, st) && !st.Pending? && !st.Running?
    ensures HasStatus(pfx, End(pfx, s, moves).redis.db, id, st)
  {
    var trace := RunRefines(pfx, s, moves);
    WorkerLaws.FinalForever(s.pool, trace, id);
  }
}
