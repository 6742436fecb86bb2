/** The Redis-backed store (internal/store/redis/redis.go), one call at a time. */
module RedisStore {
  import opened Prelude
  import opened Decimal
  import opened Jobs
  import opened RedisModel

  /** model.Job; a status of None is the empty status. */
  datatype Job = Job(
    sessionId: string, kind: string, targetId: string, status: Option<Status>,
    input: string, result: string, error: string)

  datatype StoreError = BlankId | SeqFailed | AlreadyExists | NotFound

  function Effective(st: Option<Status>): Status {
    if st.None? then Pending else st.value
  }

  // ---------------------------------------------------- the transactions of each call

  function CreateFields(job: Job, num: Int64, now: string): map<string, string> {
    map["kind" := job.kind, "target_id" := job.targetId, "status" := StatusText(Effective(job.status)),
        "input" := job.input, "result" := job.result, "error" := job.error,
        "seq" := Itoa(num), "created_at" := now, "updated_at" := now]
  }

  function CommitCreate(pfx: string, db: Db, job: Job, num: Int64, now: string): Db {
    ZAdd(HSet(db, JobKey(pfx, job.sessionId), CreateFields(job, num, now)),
         StatusKey(pfx, Effective(job.status)), num, job.sessionId)
  }

  function SetFields(st: Status, result: string, error: string, now: string): map<string, string> {
    map["status" := StatusText(st), "result" := result, "error" := error, "updated_at" := now]
  }

  /** ZADD with the stored score, or the clock when the hash has none; ZADD rejects other text. */
  function Index(db: Db, key: string, id: string, score: string, clock: int): Db {
    if score == "" then ZAdd(db, key, clock, id)
    else if ParseInt(score).Some? then ZAdd(db, key, ParseInt(score).value, id)
    else db
  }

  /** The transaction of SetJobStatus, given the status and score read before it. */
  function CommitSet(pfx: string, db: Db, id: string, st: Status, result: string, error: string,
                     old': string, score: string, now: string, clock: int): Db {
    var d := HSet(db, JobKey(pfx, id), SetFields(st, result, error, now));
    if old' != "" && old' != StatusText(st)
    then Index(ZRem(d, pfx + ("jobs:" + old'), id), StatusKey(pfx, st), id, score, clock)
    else d
  }

  // -------------------------------------------------------------------- agreement

  ghost predicate HasStatus(pfx: string, db: Db, id: string, st: Status) {
    "status" in HashOf(pfx, db, id) && HashOf(pfx, db, id)["status"] == StatusText(st)
  }

  ghost function StoredSeq(pfx: string, db: Db, id: string): Option<Int64> {
    ParseInt(Field(HashOf(pfx, db, id), "seq"))
  }

  /** A session is in the index of a status exactly when its hash holds that status, and its score
      there is its creation number. */
  ghost predicate AgreeAt(pfx: string, db: Db, id: string) {
    forall st ::
      && (id in IndexOf(pfx, db, st) <==> HasStatus(pfx, db, id, st))
      && (id in IndexOf(pfx, db, st) ==> StoredSeq(pfx, db, id) == Some(IndexOf(pfx, db, st)[id]))
  }

  /** A hash is absent, claimed but not filled in, or complete. */
  ghost predicate SoundHash(pfx: string, db: Db, id: string) {
    var h := HashOf(pfx, db, id);
    && (h != map[] ==> "session_id" in h && h["session_id"] == id)
    && ("status" in h ==> (exists st :: HasStatus(pfx, db, id, st)))
    && ("status" in h ==> "seq" in h && StoredSeq(pfx, db, id).Some? && 0 < StoredSeq(pfx, db, id).value <= SeqOf(pfx, db))
    && ("seq" in h ==> "status" in h)
  }

  ghost predicate DistinctSeqs(pfx: string, db: Db) {
    forall a, b :: a != b && StoredSeq(pfx, db, a).Some? ==> StoredSeq(pfx, db, a) != StoredSeq(pfx, db, b)
  }

  ghost predicate Agree(pfx: string, db: Db) {
    && Typed(pfx, db) && 0 <= SeqOf(pfx, db)
    && (forall id :: AgreeAt(pfx, db, id) && SoundHash(pfx, db, id))
    && DistinctSeqs(pfx, db)
  }

  /** Effect of the create transaction on a claimed session. */
  lemma CommitCreateView(pfx: string, db: Db, job: Job, num: Int64, now: string)
    requires Typed(pfx, db)
    ensures var d := CommitCreate(pfx, db, job, num, now); var st := Effective(job.status);
            && Typed(pfx, d) && SeqOf(pfx, d) == SeqOf(pfx, db)
            && HashOf(pfx, d, job.sessionId) == HashOf(pfx, db, job.sessionId) + CreateFields(job, num, now)
            && (forall x :: x != job.sessionId ==> HashOf(pfx, d, x) == HashOf(pfx, db, x))
            && (forall s :: IndexOf(pfx, d, s) == if s == st then IndexOf(pfx, db, st)[job.sessionId := num] else IndexOf(pfx, db, s))
  {
    var id, st := job.sessionId, Effective(job.status);
    var d1 := HSet(db, JobKey(pfx, id), CreateFields(job, num, now));
    HSetView(pfx, db, id, CreateFields(job, num, now));
    ZAddView(pfx, d1, st, num, id);
    assert HashOf(pfx, d1, id) == HashOf(pfx, db, id) + CreateFields(job, num, now);
  }

  /** Effect of the status transaction when it moves a session between two indexes. */
  lemma CommitMoveView(pfx: string, db: Db, id: string, st: Status, result: string, error: string, old': Status, score: string, num: Int64, now: string, clock: int)
    requires Typed(pfx, db) && st != old' && ParseInt(score) == Some(num)
    ensures var d := CommitSet(pfx, db, id, st, result, error, StatusText(old'), score, now, clock);
            && Typed(pfx, d) && SeqOf(pfx, d) == SeqOf(pfx, db)
            && HashOf(pfx, d, id) == HashOf(pfx, db, id) + SetFields(st, result, error, now)
            && (forall x :: x != id ==> HashOf(pfx, d, x) == HashOf(pfx, db, x))
            && (forall s :: IndexOf(pfx, d, s) ==
                  if s == st then IndexOf(pfx, db, st)[id := num]
                  else if s == old' then IndexOf(pfx, db, old') - {id}
                  else IndexOf(pfx, db, s))
  {
    if StatusText(st) == StatusText(old') { StatusTextInjective(st, old'); }
    var d1 := HSet(db, JobKey(pfx, id), SetFields(st, result, error, now));
    var d2 := ZRem(d1, StatusKey(pfx, old'), id);
    HSetView(pfx, db, id, SetFields(st, result, error, now));
    ZRemView(pfx, d1, old', id);
    ZAddView(pfx, d2, st, num, id);
    assert CommitSet(pfx, db, id, st, result, error, StatusText(old'), score, now, clock) == ZAdd(d2, StatusKey(pfx, st), num, id);
    assert HashOf(pfx, d1, id) == HashOf(pfx, db, id) + SetFields(st, result, error, now);
  }

  /** ... and when the status stays the same. */
  lemma CommitStayView(pfx: string, db: Db, id: string, st: Status, result: string, error: string, score: string, now: string, clock: int)
    requires Typed(pfx, db)
    ensures var d := CommitSet(pfx, db, id, st, result, error, StatusText(st), score, now, clock);
            && Typed(pfx, d) && SeqOf(pfx, d) == SeqOf(pfx, db)
            && HashOf(pfx, d, id) == HashOf(pfx, db, id) + SetFields(st, result, error, now)
            && (forall x :: x != id ==> HashOf(pfx, d, x) == HashOf(pfx, db, x))
            && (forall s :: IndexOf(pfx, d, s) == IndexOf(pfx, db, s))
  {
    HSetView(pfx, db, id, SetFields(st, result, error, now));
  }

  // ------------------------------------------------- every transaction keeps agreement

  /** A session id that is claimed but whose create transaction has not run. */
  ghost predicate HalfMade(pfx: string, db: Db, id: string) {
    var h := HashOf(pfx, db, id);
    "session_id" in h && "status" !in h
  }

  ghost predicate UnusedSeq(pfx: string, db: Db, num: Int64) {
    forall x :: StoredSeq(pfx, db, x) != Some(num)
  }

  lemma CreatedHash(pfx: string, db: Db, job: Job, num: Int64, now: string)
    requires Typed(pfx, db)
    ensures var d := CommitCreate(pfx, db, job, num, now);
            && HasStatus(pfx, d, job.sessionId, Effective(job.status)) && StoredSeq(pfx, d, job.sessionId) == Some(num)
            && (forall s :: HasStatus(pfx, d, job.sessionId, s) ==> s == Effective(job.status))
            && "seq" in HashOf(pfx, d, job.sessionId)
            && Field(HashOf(pfx, d, job.sessionId), "session_id") == Field(HashOf(pfx, db, job.sessionId), "session_id")
  {
    CommitCreateView(pfx, db, job, num, now);
    ParseItoa(num);
    var d, id := CommitCreate(pfx, db, job, num, now), job.sessionId;
    var h := HashOf(pfx, d, id);
    assert h["status"] == StatusText(Effective(job.status)) && h["seq"] == Itoa(num);
    forall s | HasStatus(pfx, d, id, s) ensures s == Effective(job.status) {
      StatusTextInjective(s, Effective(job.status));
    }
  }

  lemma CommitCreateKeeps(pfx: string, db: Db, job: Job, num: Int64, now: string)
    requires Agree(pfx, db) && HalfMade(pfx, db, job.sessionId)
    requires 0 < num <= SeqOf(pfx, db) && UnusedSeq(pfx, db, num)
    ensures Agree(pfx, CommitCreate(pfx, db, job, num, now))
  {
    var d, id := CommitCreate(pfx, db, job, num, now), job.sessionId;
    CommitCreateView(pfx, db, job, num, now);
    CreatedHash(pfx, db, job, num, now);
    assert AgreeAt(pfx, db, id) && SoundHash(pfx, db, id);
    forall x ensures AgreeAt(pfx, d, x) && SoundHash(pfx, d, x) {
      assert AgreeAt(pfx, db, x) && SoundHash(pfx, db, x);
      if x != id { UnchangedAt(pfx, db, d, x); }
    }
    forall a, b | a != b && StoredSeq(pfx, d, a).Some? ensures StoredSeq(pfx, d, a) != StoredSeq(pfx, d, b) {
      assert a != id ==> StoredSeq(pfx, d, a) == StoredSeq(pfx, db, a);
      assert b != id ==> StoredSeq(pfx, d, b) == StoredSeq(pfx, db, b);
    }
  }

  /** Agreement at a session carries over when its hash and its place in every index do. */
  lemma UnchangedAt(pfx: string, db: Db, d: Db, x: string)
    requires AgreeAt(pfx, db, x) && SoundHash(pfx, db, x) && SeqOf(pfx, db) <= SeqOf(pfx, d)
    requires HashOf(pfx, d, x) == HashOf(pfx, db, x)
    requires forall st :: (x in IndexOf(pfx, d, st) <==> x in IndexOf(pfx, db, st))
    requires forall st :: x in IndexOf(pfx, d, st) ==> IndexOf(pfx, d, st)[x] == IndexOf(pfx, db, st)[x]
    ensures AgreeAt(pfx, d, x) && SoundHash(pfx, d, x)
  {
    forall st ensures HasStatus(pfx, d, x, st) <==> HasStatus(pfx, db, x, st) {}
    assert StoredSeq(pfx, d, x) == StoredSeq(pfx, db, x);
  }

  lemma SetHash(pfx: string, db: Db, d: Db, id: string, st: Status, result: string, error: string, now: string)
    requires SoundHash(pfx, db, id) && "status" in HashOf(pfx, db, id) && SeqOf(pfx, db) == SeqOf(pfx, d)
    requires HashOf(pfx, d, id) == HashOf(pfx, db, id) + SetFields(st, result, error, now)
    ensures SoundHash(pfx, d, id) && StoredSeq(pfx, d, id) == StoredSeq(pfx, db, id)
    ensures forall s :: HasStatus(pfx, d, id, s) <==> s == st
  {
    var h, g := HashOf(pfx, db, id), HashOf(pfx, d, id);
    assert g["status"] == StatusText(st) && g["seq"] == h["seq"] && g["session_id"] == h["session_id"];
    assert HasStatus(pfx, d, id, st);
    forall s | HasStatus(pfx, d, id, s) ensures s == st { StatusTextInjective(s, st); }
  }

  /** The indexes once a session has moved from `old'` to `st`. */
  ghost predicate MovedIndexes(pfx: string, db: Db, d: Db, id: string, st: Status, old': Status, num: Int64) {
    forall s :: IndexOf(pfx, d, s) ==
      if st == old' then IndexOf(pfx, db, s)
      else if s == st then IndexOf(pfx, db, st)[id := num]
      else if s == old' then IndexOf(pfx, db, old') - {id}
      else IndexOf(pfx, db, s)
  }

  lemma CommitSetView(pfx: string, db: Db, id: string, st: Status, result: string, error: string, old': Status, score: string, num: Int64, now: string, clock: int)
    requires Typed(pfx, db) && ParseInt(score) == Some(num)
    ensures var d := CommitSet(pfx, db, id, st, result, error, StatusText(old'), score, now, clock);
            && Typed(pfx, d) && SeqOf(pfx, d) == SeqOf(pfx, db)
            && HashOf(pfx, d, id) == HashOf(pfx, db, id) + SetFields(st, result, error, now)
            && (forall x :: x != id ==> HashOf(pfx, d, x) == HashOf(pfx, db, x))
            && MovedIndexes(pfx, db, d, id, st, old', num)
  {
    if st == old' {
      CommitStayView(pfx, db, id, st, result, error, score, now, clock);
    } else {
      CommitMoveView(pfx, db, id, st, result, error, old', score, num, now, clock);
    }
  }

  /** A status write based on what the hash holds at that moment keeps agreement. */
  lemma CommitSetKeeps(pfx: string, db: Db, id: string, st: Status, result: string, error: string, old': Status, now: string, clock: int)
    requires Agree(pfx, db) && HasStatus(pfx, db, id, old')
    ensures Agree(pfx, CommitSet(pfx, db, id, st, result, error, StatusText(old'), Field(HashOf(pfx, db, id), "seq"), now, clock))
  {
    var score := Field(HashOf(pfx, db, id), "seq");
    var d := CommitSet(pfx, db, id, st, result, error, StatusText(old'), score, now, clock);
    assert SoundHash(pfx, db, id) && AgreeAt(pfx, db, id);
    var num := StoredSeq(pfx, db, id).value;
    CommitSetView(pfx, db, id, st, result, error, old', score, num, now, clock);
    SetHash(pfx, db, d, id, st, result, error, now);
    MovedAgrees(pfx, db, d, id, st, old', num);
    OthersAgree(pfx, db, d, id, st, old', num);
  }

  /** A move of one session leaves every other session, and the numbering, as they were. */
  lemma OthersAgree(pfx: string, db: Db, d: Db, id: string, st: Status, old': Status, num: Int64)
    requires Agree(pfx, db) && Typed(pfx, d) && SeqOf(pfx, d) == SeqOf(pfx, db)
    requires forall x :: x != id ==> HashOf(pfx, d, x) == HashOf(pfx, db, x)
    requires MovedIndexes(pfx, db, d, id, st, old', num)
    requires AgreeAt(pfx, d, id) && SoundHash(pfx, d, id) && StoredSeq(pfx, d, id) == StoredSeq(pfx, db, id)
    ensures Agree(pfx, d)
  {
    forall x ensures AgreeAt(pfx, d, x) && SoundHash(pfx, d, x) {
      if x != id { OtherAgrees(pfx, db, d, id, st, old', num, x); }
    }
    forall x ensures StoredSeq(pfx, d, x) == StoredSeq(pfx, db, x) {}
  }

  lemma OtherAgrees(pfx: string, db: Db, d: Db, id: string, st: Status, old': Status, num: Int64, x: string)
    requires Agree(pfx, db) && SeqOf(pfx, d) == SeqOf(pfx, db) && x != id
    requires HashOf(pfx, d, x) == HashOf(pfx, db, x) && MovedIndexes(pfx, db, d, id, st, old', num)
    ensures AgreeAt(pfx, d, x) && SoundHash(pfx, d, x)
  {
    assert AgreeAt(pfx, db, x) && SoundHash(pfx, db, x);
    UnchangedAt(pfx, db, d, x);
  }

  lemma MovedAgrees(pfx: string, db: Db, d: Db, id: string, st: Status, old': Status, num: Int64)
    requires AgreeAt(pfx, db, id) && HasStatus(pfx, db, id, old') && StoredSeq(pfx, db, id) == Some(num)
    requires StoredSeq(pfx, d, id) == Some(num) && forall s :: HasStatus(pfx, d, id, s) <==> s == st
    requires MovedIndexes(pfx, db, d, id, st, old', num)
    ensures AgreeAt(pfx, d, id)
  {
    forall s | HasStatus(pfx, db, id, s) ensures s == old' { StatusTextInjective(s, old'); }
  }

  lemma ClaimKeeps(pfx: string, db: Db, id: string)
    requires Agree(pfx, db) && HashOf(pfx, db, id) == map[]
    ensures Agree(pfx, HSet(db, JobKey(pfx, id), map["session_id" := id]))
    ensures HalfMade(pfx, HSet(db, JobKey(pfx, id), map["session_id" := id]), id)
  {
    var d := HSet(db, JobKey(pfx, id), map["session_id" := id]);
    HSetView(pfx, db, id, map["session_id" := id]);
    assert AgreeAt(pfx, db, id);
    assert HashOf(pfx, d, id) == map["session_id" := id];
    forall x ensures AgreeAt(pfx, d, x) && SoundHash(pfx, d, x) {
      assert AgreeAt(pfx, db, x) && SoundHash(pfx, db, x);
      if x != id { UnchangedAt(pfx, db, d, x); }
    }
    forall a ensures StoredSeq(pfx, d, a) == StoredSeq(pfx, db, a) {}
  }

  lemma IncrKeeps(pfx: string, db: Db)
    requires Agree(pfx, db) && Incr(db, SeqKey(pfx)).Some?
    ensures Agree(pfx, Incr(db, SeqKey(pfx)).value.0) && UnusedSeq(pfx, Incr(db, SeqKey(pfx)).value.0, Incr(db, SeqKey(pfx)).value.1)
  {
    var d := Incr(db, SeqKey(pfx)).value.0;
    IncrView(pfx, db);
    forall x ensures AgreeAt(pfx, d, x) && SoundHash(pfx, d, x) && StoredSeq(pfx, d, x) == StoredSeq(pfx, db, x) {
      assert AgreeAt(pfx, db, x) && SoundHash(pfx, db, x);
      UnchangedAt(pfx, db, d, x);
    }
    forall x ensures StoredSeq(pfx, d, x) != Some(Incr(db, SeqKey(pfx)).value.1) {
      assert SoundHash(pfx, db, x);
    }
  }
}
