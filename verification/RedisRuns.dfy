/** Concurrent callers of the Redis store (internal/store/redis/redis.go). Every command and every
    MULTI/EXEC transaction is one atomic step; steps of different calls interleave freely. */
module RedisRuns {
  import opened Prelude
  import opened Decimal
  import opened Jobs
  import opened RedisModel
  import opened RedisStore

  /** Where a call stands between two commands. */
  datatype Op =
    | Creating(job: Job)                             // about to INCR
    | Numbered(job: Job, num: Int64)                 // about to HSETNX
    | Claimed(job: Job, num: Int64)                  // about to run the create transaction
    | Setting(write: Write)                          // about to HMGET
    | Missed(write: Write)                           // HMGET found nothing, about to HGETALL
    | Loaded(write: Write, was: string, score: string) // about to run the status transaction

  /** The arguments of one SetJobStatus call. */
  datatype Write = Write(id: string, st: Status, result: string, error: string)

  datatype Sys = Sys(db: Db, ops: map<nat, Op>)

  /** A caller begins a call, runs its next command, or stops for good with the call unfinished. */
  datatype Action = Begin(c: nat, op: Op) | Step(c: nat, now: string, clock: int) | Abandon(c: nat)

  /** The session whose status a call is in the middle of writing. A create writes from its claim on. */
  function Writes(op: Op): Option<string> {
    match op
    case Creating(_) => None
    case Numbered(_, _) => None
    case Claimed(job, _) => Some(job.sessionId)
    case Setting(w) => Some(w.id)
    case Missed(w) => Some(w.id)
    case Loaded(w, _, _) => Some(w.id)
  }

  ghost predicate WriteOpen(s: Sys, id: string) {
    exists c :: c in s.ops && Writes(s.ops[c]) == Some(id)
  }

  function Advance(pfx: string, db: Db, op: Op, now: string, clock: int): (Db, Option<Op>) {
    match op
    case Creating(job) =>
      var r := Incr(db, SeqKey(pfx));
      if r.None? then (db, None) else (r.value.0, Some(Numbered(job, r.value.1)))
    case Numbered(job, num) =>
      if "session_id" in HashOf(pfx, db, job.sessionId) then (db, None)
      else (HSet(db, JobKey(pfx, job.sessionId), map["session_id" := job.sessionId]), Some(Claimed(job, num)))
    case Claimed(job, num) => (CommitCreate(pfx, db, job, num, now), None)
    case Setting(w) =>
      var was, score := Field(HashOf(pfx, db, w.id), "status"), Field(HashOf(pfx, db, w.id), "seq");
      (db, Some(if was == "" && score == "" then Missed(w) else Loaded(w, was, score)))
    case Missed(w) => (db, if HashOf(pfx, db, w.id) == map[] then None else Some(Loaded(w, "", "")))
    case Loaded(w, was, score) => (CommitSet(pfx, db, w.id, w.st, w.result, w.error, was, score, now, clock), None)
  }

  function Put(ops: map<nat, Op>, c: nat, op: Option<Op>): map<nat, Op> {
    if op.Some? then ops[c := op.value] else ops - {c}
  }

  function After(pfx: string, s: Sys, a: Action): Sys {
    match a
    case Begin(c, op) => s.(ops := s.ops[c := op])
    case Abandon(c) => s.(ops := s.ops - {c})
    case Step(c, now, clock) =>
      if c !in s.ops then s
      else
        var (db, op) := Advance(pfx, s.db, s.ops[c], now, clock);
        Sys(db, Put(s.ops, c, op))
  }

  function Ran(pfx: string, s: Sys, trace: seq<Action>): Sys {
    if trace == [] then s else After(pfx, Ran(pfx, s, trace[..|trace| - 1]), trace[|trace| - 1])
  }

  ghost predicate Possible(s: Sys, a: Action) {
    match a
    case Begin(c, op) => c !in s.ops && (op.Creating? || op.Setting?)
    case Abandon(c) => c in s.ops
    case Step(c, _, _) => c in s.ops
  }

  /** The next command of the call claims its session. */
  ghost predicate Claims(pfx: string, db: Db, op: Op) {
    op.Numbered? && "session_id" !in HashOf(pfx, db, op.job.sessionId)
  }

  /** Writes of one session do not overlap: none begins while another is open, or on a session whose
      creation stopped half way. */
  ghost predicate NoOverlap(pfx: string, s: Sys, a: Action) {
    match a
    case Begin(_, op) => op.Setting? ==> !WriteOpen(s, op.write.id) && !HalfMade(pfx, s.db, op.write.id)
    case Step(c, _, _) => c in s.ops && Claims(pfx, s.db, s.ops[c]) ==> !WriteOpen(s, s.ops[c].job.sessionId)
    case Abandon(_) => true
  }

  ghost predicate Allowed(pfx: string, s: Sys, trace: seq<Action>) {
    trace != [] ==>
      var before := trace[..|trace| - 1];
      && Allowed(pfx, s, before)
      && Possible(Ran(pfx, s, before), trace[|trace| - 1])
      && NoOverlap(pfx, Ran(pfx, s, before), trace[|trace| - 1])
  }

  // -------------------------------------------------------------------- the invariant

  ghost predicate HoldsNumber(pfx: string, db: Db, num: Int64) {
    0 < num <= SeqOf(pfx, db) && UnusedSeq(pfx, db, num)
  }

  ghost predicate OpOk(pfx: string, db: Db, op: Op) {
    match op
    case Creating(_) => true
    case Numbered(_, num) => HoldsNumber(pfx, db, num)
    case Claimed(job, num) => HoldsNumber(pfx, db, num) && HalfMade(pfx, db, job.sessionId)
    case Setting(w) => !HalfMade(pfx, db, w.id)
    case Missed(w) => HashOf(pfx, db, w.id) == map[]
    case Loaded(w, was, score) =>
      var h := HashOf(pfx, db, w.id);
      "status" in h && was == h["status"] && score == Field(h, "seq")
  }

  function NumberOf(op: Op): Option<Int64> {
    match op
    case Numbered(_, num) => Some(num)
    case Claimed(_, num) => Some(num)
    case _ => None
  }

  ghost predicate Apart(a: Op, b: Op) {
    && (NumberOf(a).Some? ==> NumberOf(a) != NumberOf(b))
    && (Writes(a).Some? ==> Writes(a) != Writes(b))
  }

  ghost predicate Inv(pfx: string, s: Sys) {
    && Agree(pfx, s.db)
    && (forall c :: c in s.ops ==> OpOk(pfx, s.db, s.ops[c]))
    && (forall c, d :: c in s.ops && d in s.ops && c != d ==> Apart(s.ops[c], s.ops[d]))
  }

  /** What a step may do to the store without disturbing the call `op`. */
  ghost predicate Undisturbed(pfx: string, db: Db, d: Db, op: Op) {
    && SeqOf(pfx, db) <= SeqOf(pfx, d)
    && (Writes(op).Some? ==> HashOf(pfx, d, Writes(op).value) == HashOf(pfx, db, Writes(op).value))
    && (NumberOf(op).Some? && UnusedSeq(pfx, db, NumberOf(op).value) ==> UnusedSeq(pfx, d, NumberOf(op).value))
  }

  lemma OpStays(pfx: string, db: Db, d: Db, op: Op)
    requires OpOk(pfx, db, op) && Undisturbed(pfx, db, d, op)
    ensures OpOk(pfx, d, op)
  {
  }

  /** The invariant after one call moves, from what its move does to itself and to the others. */
  lemma MoveKeeps(pfx: string, s: Sys, c: nat, d: Db, op: Option<Op>)
    requires Inv(pfx, s) && c in s.ops && Agree(pfx, d)
    requires forall e :: e in s.ops && e != c ==> Undisturbed(pfx, s.db, d, s.ops[e])
    requires op.Some? ==> OpOk(pfx, d, op.value) && forall e :: e in s.ops && e != c ==> Apart(op.value, s.ops[e]) && Apart(s.ops[e], op.value)
    ensures Inv(pfx, Sys(d, Put(s.ops, c, op)))
  {
    var ops := Put(s.ops, c, op);
    forall e | e in ops ensures OpOk(pfx, d, ops[e]) {
      if e != c { OpStays(pfx, s.db, d, s.ops[e]); }
    }
  }

  lemma NumberKeeps(pfx: string, s: Sys, c: nat, now: string, clock: int)
    requires Inv(pfx, s) && c in s.ops && s.ops[c].Creating?
    ensures Inv(pfx, After(pfx, s, Step(c, now, clock)))
  {
    var (d, op) := Advance(pfx, s.db, s.ops[c], now, clock);
    if op.Some? {
      IncrView(pfx, s.db);
      IncrKeeps(pfx, s.db);
      forall x ensures StoredSeq(pfx, d, x) == StoredSeq(pfx, s.db, x) {}
      forall e | e in s.ops && e != c ensures Apart(op.value, s.ops[e]) && Apart(s.ops[e], op.value) {
        assert OpOk(pfx, s.db, s.ops[e]);
      }
    }
    MoveKeeps(pfx, s, c, d, op);
  }

  lemma ClaimStepKeeps(pfx: string, s: Sys, c: nat, now: string, clock: int)
    requires Inv(pfx, s) && c in s.ops && s.ops[c].Numbered? && NoOverlap(pfx, s, Step(c, now, clock))
    ensures Inv(pfx, After(pfx, s, Step(c, now, clock)))
  {
    var (d, op) := Advance(pfx, s.db, s.ops[c], now, clock);
    assert OpOk(pfx, s.db, s.ops[c]);
    if op.Some? {
      var id := s.ops[c].job.sessionId;
      assert SoundHash(pfx, s.db, id);
      ClaimKeeps(pfx, s.db, id);
      HSetView(pfx, s.db, id, map["session_id" := id]);
      assert Field(map["session_id" := id], "seq") == "";
      forall x ensures StoredSeq(pfx, d, x) == StoredSeq(pfx, s.db, x) {}
      forall e | e in s.ops && e != c ensures Apart(op.value, s.ops[e]) && Apart(s.ops[e], op.value) {
        assert Apart(s.ops[c], s.ops[e]) && Apart(s.ops[e], s.ops[c]);
      }
    }
    MoveKeeps(pfx, s, c, d, op);
  }

  lemma CreateKeeps(pfx: string, s: Sys, c: nat, now: string, clock: int)
    requires Inv(pfx, s) && c in s.ops && s.ops[c].Claimed?
    ensures Inv(pfx, After(pfx, s, Step(c, now, clock)))
  {
    var (d, op) := Advance(pfx, s.db, s.ops[c], now, clock);
    var job, num := s.ops[c].job, s.ops[c].num;
    assert OpOk(pfx, s.db, s.ops[c]);
    CommitCreateKeeps(pfx, s.db, job, num, now);
    CommitCreateView(pfx, s.db, job, num, now);
    CreatedHash(pfx, s.db, job, num, now);
    forall e | e in s.ops && e != c ensures Undisturbed(pfx, s.db, d, s.ops[e]) {
      assert Apart(s.ops[c], s.ops[e]) && Apart(s.ops[e], s.ops[c]);
      forall x | x != job.sessionId ensures StoredSeq(pfx, d, x) == StoredSeq(pfx, s.db, x) {}
    }
    MoveKeeps(pfx, s, c, d, op);
  }

  lemma ReadKeeps(pfx: string, s: Sys, c: nat, now: string, clock: int)
    requires Inv(pfx, s) && c in s.ops && (s.ops[c].Setting? || s.ops[c].Missed?)
    ensures Inv(pfx, After(pfx, s, Step(c, now, clock)))
  {
    var (d, op) := Advance(pfx, s.db, s.ops[c], now, clock);
    var id := s.ops[c].write.id;
    assert OpOk(pfx, s.db, s.ops[c]) && SoundHash(pfx, s.db, id);
    if op.Some? {
      ReadFinds(pfx, s.db, s.ops[c].write);
      forall e | e in s.ops && e != c ensures Apart(op.value, s.ops[e]) && Apart(s.ops[e], op.value) {
        assert Apart(s.ops[c], s.ops[e]) && Apart(s.ops[e], s.ops[c]);
      }
    }
    MoveKeeps(pfx, s, c, d, op);
  }

  /** HMGET comes back empty exactly when the session does not exist, unless it is half made. */
  lemma ReadFinds(pfx: string, db: Db, w: Write)
    requires Agree(pfx, db) && !HalfMade(pfx, db, w.id)
    ensures var h := HashOf(pfx, db, w.id);
            && (Field(h, "status") == "" <==> h == map[])
            && (h != map[] ==> "status" in h)
  {
    assert SoundHash(pfx, db, w.id);
  }

  lemma WriteKeeps(pfx: string, s: Sys, c: nat, now: string, clock: int)
    requires Inv(pfx, s) && c in s.ops && s.ops[c].Loaded?
    ensures Inv(pfx, After(pfx, s, Step(c, now, clock)))
  {
    var (d, op) := Advance(pfx, s.db, s.ops[c], now, clock);
    var w, h := s.ops[c].write, HashOf(pfx, s.db, s.ops[c].write.id);
    assert OpOk(pfx, s.db, s.ops[c]) && SoundHash(pfx, s.db, w.id);
    var was :| HasStatus(pfx, s.db, w.id, was);
    CommitSetKeeps(pfx, s.db, w.id, w.st, w.result, w.error, was, now, clock);
    CommitSetView(pfx, s.db, w.id, w.st, w.result, w.error, was, h["seq"], StoredSeq(pfx, s.db, w.id).value, now, clock);
    SetHash(pfx, s.db, d, w.id, w.st, w.result, w.error, now);
    forall e | e in s.ops && e != c ensures Undisturbed(pfx, s.db, d, s.ops[e]) {
      assert Apart(s.ops[c], s.ops[e]) && Apart(s.ops[e], s.ops[c]);
      forall x ensures StoredSeq(pfx, d, x) == StoredSeq(pfx, s.db, x) {}
    }
    MoveKeeps(pfx, s, c, d, op);
  }

  lemma BeginKeeps(pfx: string, s: Sys, c: nat, op: Op)
    requires Inv(pfx, s) && Possible(s, Begin(c, op)) && NoOverlap(pfx, s, Begin(c, op))
    ensures Inv(pfx, After(pfx, s, Begin(c, op)))
  {
    forall e | e in s.ops ensures Apart(op, s.ops[e]) && Apart(s.ops[e], op) {}
  }

  lemma StepKeeps(pfx: string, s: Sys, a: Action)
    requires Inv(pfx, s) && Possible(s, a) && NoOverlap(pfx, s, a)
    ensures Inv(pfx, After(pfx, s, a))
  {
    match a
    case Begin(c, op) => BeginKeeps(pfx, s, c, op);
    case Abandon(c) =>
    case Step(c, now, clock) =>
      match s.ops[c]
      case Creating(_) => NumberKeeps(pfx, s, c, now, clock);
      case Numbered(_, _) => ClaimStepKeeps(pfx, s, c, now, clock);
      case Claimed(_, _) => CreateKeeps(pfx, s, c, now, clock);
      case Setting(_) => ReadKeeps(pfx, s, c, now, clock);
      case Missed(_) => ReadKeeps(pfx, s, c, now, clock);
      case Loaded(_, _, _) => WriteKeeps(pfx, s, c, now, clock);
  }

  lemma {:induction false} RunsKeep(pfx: string, s: Sys, trace: seq<Action>)
    requires Inv(pfx, s) && Allowed(pfx, s, trace)
    ensures Inv(pfx, Ran(pfx, s, trace))
  {
    if trace != [] {
      var before := trace[..|trace| - 1];
      RunsKeep(pfx, s, before);
      StepKeeps(pfx, Ran(pfx, s, before), trace[|trace| - 1]);
    }
  }

  /** Over every interleaving of creates and status writes in which the writes of one session do not
      overlap, a session is in the index of a status exactly when its hash holds that status, scored by
      its own creation number, and no two sessions share a number. */
  lemma IndexAgreement(pfx: string, trace: seq<Action>)
    requires Allowed(pfx, Sys(map[], map[]), trace)
    ensures var db := Ran(pfx, Sys(map[], map[]), trace).db;
            (forall id :: AgreeAt(pfx, db, id)) && DistinctSeqs(pfx, db)
  {
    EmptyInv(pfx);
    RunsKeep(pfx, Sys(map[], map[]), trace);
  }

  lemma EmptyInv(pfx: string)
    ensures Inv(pfx, Sys(map[], map[]))
  {
    var db: Db := map[];
    forall id ensures HashOf(pfx, db, id) == map[] && AgreeAt(pfx, db, id) && SoundHash(pfx, db, id) && StoredSeq(pfx, db, id) == None {}
  }

  // ------------------------------------------------------------- when writes do overlap

  /** Two status writes that both read before either commits leave the indexes in agreement exactly
      when the first one changes nothing, or both write the same status. */
  lemma OverlapAgreesIff(pfx: string, s: Sys, c: nat, d: nat, was: Status, now: string, clock: int)
    requires Agree(pfx, s.db) && c != d && c in s.ops && d in s.ops && s.ops[c].Loaded? && s.ops[d].Loaded?
    requires OpOk(pfx, s.db, s.ops[c]) && OpOk(pfx, s.db, s.ops[d])
    requires s.ops[c].write.id == s.ops[d].write.id && HasStatus(pfx, s.db, s.ops[c].write.id, was)
    ensures var v, w := s.ops[c].write, s.ops[d].write;
            AgreeAt(pfx, After(pfx, After(pfx, s, Step(c, now, clock)), Step(d, now, clock)).db, v.id) <==> v.st == was || v.st == w.st
  {
    var v, w, db := s.ops[c].write, s.ops[d].write, s.db;
    var id, h := v.id, HashOf(pfx, db, v.id);
    assert SoundHash(pfx, db, id) && AgreeAt(pfx, db, id);
    var num := StoredSeq(pfx, db, id).value;
    var one := CommitSet(pfx, db, id, v.st, v.result, v.error, StatusText(was), h["seq"], now, clock);
    var two := CommitSet(pfx, one, id, w.st, w.result, w.error, StatusText(was), h["seq"], now, clock);
    CommitSetView(pfx, db, id, v.st, v.result, v.error, was, h["seq"], num, now, clock);
    SetHash(pfx, db, one, id, v.st, v.result, v.error, now);
    CommitSetView(pfx, one, id, w.st, w.result, w.error, was, h["seq"], num, now, clock);
    SetHash(pfx, one, two, id, w.st, w.result, w.error, now);
    TwoMoves(pfx, db, one, two, id, was, v.st, w.st, num);
    assert After(pfx, s, Step(c, now, clock)) == Sys(one, s.ops - {c});
  }

  lemma TwoMoves(pfx: string, db: Db, one: Db, two: Db, id: string, was: Status, a: Status, b: Status, num: Int64)
    requires AgreeAt(pfx, db, id) && HasStatus(pfx, db, id, was) && StoredSeq(pfx, db, id) == Some(num)
    requires MovedIndexes(pfx, db, one, id, a, was, num) && MovedIndexes(pfx, one, two, id, b, was, num)
    requires StoredSeq(pfx, two, id) == Some(num) && forall s :: HasStatus(pfx, two, id, s) <==> s == b
    ensures AgreeAt(pfx, two, id) <==> a == was || a == b
  {
    forall s | HasStatus(pfx, db, id, s) ensures s == was { StatusTextInjective(s, was); }
    if a != was && a != b {
      assert id in IndexOf(pfx, one, a);
      assert id in IndexOf(pfx, two, a);
      assert !HasStatus(pfx, two, id, a);
    }
  }

  /** A status write to a session whose creation stopped half way always breaks agreement: the hash
      gains a status, no index gains the session. */
  lemma HalfMadeWriteBreaks(pfx: string, s: Sys, c: nat, w: Write, now: string, clock: int)
    requires Agree(pfx, s.db) && HalfMade(pfx, s.db, w.id) && c !in s.ops
    ensures var step := Step(c, now, clock);
            !Agree(pfx, Ran(pfx, s, [Begin(c, Setting(w)), step, step, step]).db)
  {
    var step := Step(c, now, clock);
    var trace := [Begin(c, Setting(w)), step, step, step];
    assert SoundHash(pfx, s.db, w.id) && AgreeAt(pfx, s.db, w.id);
    var s1 := After(pfx, s, trace[0]);
    var s2 := After(pfx, s1, step);
    var s3 := After(pfx, s2, step);
    var s4 := After(pfx, s3, step);
    assert s2 == s1.(ops := s1.ops[c := Missed(w)]);
    assert s3 == s2.(ops := s2.ops[c := Loaded(w, "", "")]);
    RanFour(pfx, s, trace[0], step);
    HSetView(pfx, s.db, w.id, SetFields(w.st, w.result, w.error, now));
    assert HasStatus(pfx, s4.db, w.id, w.st);
    assert !HasStatus(pfx, s.db, w.id, w.st);
    assert !AgreeAt(pfx, s4.db, w.id);
  }

  lemma RanFour(pfx: string, s: Sys, a: Action, b: Action)
    ensures Ran(pfx, s, [a, b, b, b]) == After(pfx, After(pfx, After(pfx, After(pfx, s, a), b), b), b)
  {
    var s1 := After(pfx, s, a);
    assert [a][..0] == [];
    assert Ran(pfx, s, [a]) == s1;
    assert [a, b][..1] == [a];
    assert Ran(pfx, s, [a, b]) == After(pfx, s1, b);
    assert [a, b, b][..2] == [a, b];
    assert Ran(pfx, s, [a, b, b]) == After(pfx, After(pfx, s1, b), b);
    assert [a, b, b, b][..3] == [a, b, b];
  }
}
