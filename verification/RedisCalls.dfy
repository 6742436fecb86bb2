/** The store's calls, run one at a time (internal/store/redis/redis.go). */
module RedisCalls {
  import opened Prelude
  import opened Decimal
  import opened Text
  import opened Jobs
  import opened RedisModel
  import opened RedisStore

  // ------------------------------------------------------------- hashes on the wire

  function KeyAt(arr: seq<string>, i: nat): string
    requires 2 * i + 1 < |arr|
  {
    arr[2 * i]
  }

  function ValueAt(arr: seq<string>, i: nat): string
    requires 2 * i + 1 < |arr|
  {
    arr[2 * i + 1]
  }

  /** An HGETALL reply: the field-value pairs of the hash, in an order the server chooses. */
  ghost predicate IsFlat(fields: map<string, string>, arr: seq<string>) {
    && |arr| % 2 == 0
    && (forall i: nat :: 2 * i + 1 < |arr| ==> KeyAt(arr, i) in fields && fields[KeyAt(arr, i)] == ValueAt(arr, i))
    && (forall k :: k in fields ==> exists i: nat :: 2 * i + 1 < |arr| && KeyAt(arr, i) == k)
  }

  /** The first n pairs, later ones winning. */
  function Pairs(arr: seq<string>, n: nat): map<string, string>
    requires 2 * n <= |arr|
  {
    if n == 0 then map[] else Pairs(arr, n - 1)[KeyAt(arr, n - 1) := ValueAt(arr, n - 1)]
  }

  method HashToMap(arr: seq<string>) returns (m: map<string, string>)
    ensures m == Pairs(arr, |arr| / 2)
    ensures forall fields :: IsFlat(fields, arr) ==> m == fields
  {
    m := map[];
    var i := 0;
    while i + 1 < |arr|
      invariant 0 <= i <= |arr| && i % 2 == 0
      invariant m == Pairs(arr, i / 2)
    {
      m := m[arr[i] := arr[i + 1]];
      assert KeyAt(arr, i / 2) == arr[i] && ValueAt(arr, i / 2) == arr[i + 1];
      i := i + 2;
    }
    forall fields | IsFlat(fields, arr) ensures m == fields { FlatRoundTrip(fields, arr); }
  }

  lemma {:induction false} PairsKeys(fields: map<string, string>, arr: seq<string>, n: nat)
    requires 2 * n <= |arr|
    requires forall i: nat :: i < n ==> KeyAt(arr, i) in fields && fields[KeyAt(arr, i)] == ValueAt(arr, i)
    ensures forall k :: k in Pairs(arr, n) ==> k in fields && Pairs(arr, n)[k] == fields[k]
    ensures forall i: nat :: i < n ==> KeyAt(arr, i) in Pairs(arr, n)
  {
    if n != 0 { PairsKeys(fields, arr, n - 1); }
  }

  lemma FlatRoundTrip(fields: map<string, string>, arr: seq<string>)
    requires IsFlat(fields, arr)
    ensures Pairs(arr, |arr| / 2) == fields
  {
    PairsKeys(fields, arr, |arr| / 2);
  }

  /** The server's answer to HGETALL. */
  method HGetAll(db: Db, k: string) returns (arr: seq<string>)
    ensures IsFlat(HashAt(db, k), arr)
  {
    var fields := HashAt(db, k);
    var rest := fields.Keys;
    arr := [];
    while rest != {}
      invariant rest <= fields.Keys && |arr| % 2 == 0
      invariant forall i: nat :: 2 * i + 1 < |arr| ==> KeyAt(arr, i) in fields && fields[KeyAt(arr, i)] == ValueAt(arr, i)
      invariant forall f :: f in fields && f !in rest ==> exists i: nat :: 2 * i + 1 < |arr| && KeyAt(arr, i) == f
      decreases |rest|
    {
      var f :| f in rest;
      ghost var was := arr;
      arr := arr + [f, fields[f]];
      rest := rest - {f};
      assert forall i: nat :: 2 * i + 1 < |was| ==> KeyAt(arr, i) == KeyAt(was, i) && ValueAt(arr, i) == ValueAt(was, i);
      assert KeyAt(arr, |was| / 2) == f && ValueAt(arr, |was| / 2) == fields[f];
    }
  }

  // ------------------------------------------------------------- sorted sets

  /** A ZRANGE reply: every member once, by rising score. */
  ghost predicate IsRange(scores: map<string, int>, ids: seq<string>) {
    && (forall i :: 0 <= i < |ids| ==> ids[i] in scores)
    && (forall x :: x in scores ==> x in ids)
    && (forall i, j :: 0 <= i < j < |ids| ==> ids[i] != ids[j])
    && (forall i, j :: 0 <= i < j < |ids| ==> scores[ids[i]] <= scores[ids[j]])
  }

  /** The server's answer to ZRANGE 0 -1. */
  method ZRange(db: Db, k: string) returns (ids: seq<string>)
    ensures IsRange(ScoresAt(db, k), ids)
  {
    var scores := ScoresAt(db, k);
    var rest := scores.Keys;
    ids := [];
    ghost var done: map<string, int> := map[];
    while rest != {}
      invariant rest <= scores.Keys
      invariant done == map x | x in scores && x !in rest :: scores[x]
      invariant IsRange(done, ids)
      decreases |rest|
    {
      var x :| x in rest;
      ids := Insert(done, ids, scores, x);
      rest := rest - {x};
      done := done[x := scores[x]];
    }
    assert done == scores;
  }

  method Insert(ghost done: map<string, int>, ids: seq<string>, scores: map<string, int>, x: string) returns (r: seq<string>)
    requires IsRange(done, ids) && x !in done && x in scores
    requires forall y :: y in done ==> y in scores && scores[y] == done[y]
    ensures IsRange(done[x := scores[x]], r)
  {
    var i := 0;
    while i < |ids| && scores[ids[i]] <= scores[x]
      invariant 0 <= i <= |ids|
      invariant forall j :: 0 <= j < i ==> done[ids[j]] <= scores[x]
    {
      i := i + 1;
    }
    r := ids[..i] + [x] + ids[i..];
    InsertedIsRange(done, ids, x, scores[x], i);
  }

  lemma InsertedIsRange(done: map<string, int>, ids: seq<string>, x: string, score: int, i: nat)
    requires IsRange(done, ids) && x !in done && i <= |ids|
    requires forall j :: 0 <= j < i ==> done[ids[j]] <= score
    requires i < |ids| ==> score < done[ids[i]]
    ensures IsRange(done[x := score], ids[..i] + [x] + ids[i..])
  {
    var r, now := ids[..i] + [x] + ids[i..], done[x := score];
    forall y ensures y in r <==> y == x || y in ids { InsertedHolds(ids, x, i, y); }
    forall j | 0 <= j < |r| ensures r[j] in now { assert r[j] in r; }
    forall j, k | 0 <= j < k < |r| ensures r[j] != r[k] && now[r[j]] <= now[r[k]] {
      InsertedOrder(done, ids, x, score, i, j, k);
    }
  }

  lemma InsertedHolds(ids: seq<string>, x: string, i: nat, y: string)
    requires i <= |ids|
    ensures y in ids[..i] + [x] + ids[i..] <==> y == x || y in ids
  {
    assert ids == ids[..i] + ids[i..];
  }

  lemma InsertedOrder(done: map<string, int>, ids: seq<string>, x: string, score: int, i: nat, j: nat, k: nat)
    requires IsRange(done, ids) && x !in done && i <= |ids| && j < k <= |ids|
    requires forall j :: 0 <= j < i ==> done[ids[j]] <= score
    requires i < |ids| ==> score < done[ids[i]]
    ensures var r, now := ids[..i] + [x] + ids[i..], done[x := score];
            r[j] != r[k] && r[j] in now && r[k] in now && now[r[j]] <= now[r[k]]
  {
    var r := ids[..i] + [x] + ids[i..];
    assert r[j] == if j < i then ids[j] else if j == i then x else ids[j - 1];
    assert r[k] == if k < i then ids[k] else if k == i then x else ids[k - 1];
    if i < k { assert done[ids[i]] <= done[ids[k - 1]]; }
  }

  // ---------------------------------------------------------------- what is stored

  function StatusNamed(s: string): (st: Option<Status>)
    ensures forall x :: st == Some(x) <==> StatusText(x) == s
  {
    if s == "PENDING" then Some(Pending)
    else if s == "RUNNING" then Some(Running)
    else if s == "COMPLETED" then Some(Completed)
    else if s == "FAILED" then Some(Failed)
    else if s == "CANCELED" then Some(Canceled)
    else if s == "SKIPPED" then Some(Skipped)
    else None
  }

  function JobFromFields(f: map<string, string>): Job {
    Job(Field(f, "session_id"), Field(f, "kind"), Field(f, "target_id"), StatusNamed(Field(f, "status")),
        Field(f, "input"), Field(f, "result"), Field(f, "error"))
  }

  /** The job the store holds for a session. */
  function Stored(pfx: string, db: Db, id: string): Option<Job> {
    if HashOf(pfx, db, id) == map[] then None else Some(JobFromFields(HashOf(pfx, db, id)))
  }

  /** When the session was created, and when it was last written. */
  function Times(pfx: string, db: Db, id: string): (string, string) {
    (Field(HashOf(pfx, db, id), "created_at"), Field(HashOf(pfx, db, id), "updated_at"))
  }

  /** Agreement, with no session left between its claim and its create transaction. */
  ghost predicate Settled(pfx: string, db: Db) {
    Agree(pfx, db) && forall id :: HashOf(pfx, db, id) == map[] || "status" in HashOf(pfx, db, id)
  }

  /** Exactly the jobs in a status, each once, oldest first. */
  ghost predicate IsListing(pfx: string, db: Db, st: Status, jobs: seq<Job>) {
    && (forall i :: 0 <= i < |jobs| ==> jobs[i].status == Some(st) && Stored(pfx, db, jobs[i].sessionId) == Some(jobs[i]))
    && (forall id :: Stored(pfx, db, id).Some? && Stored(pfx, db, id).value.status == Some(st) ==> Stored(pfx, db, id).value in jobs)
    && (forall i, j :: 0 <= i < j < |jobs| ==> Older(pfx, db, jobs[i].sessionId, jobs[j].sessionId))
  }

  /** A session claimed under number `num`, the newest, with its create transaction still to run. */
  ghost predicate JustClaimed(pfx: string, db: Db, id: string, num: Int64) {
    && Agree(pfx, db) && HashOf(pfx, db, id) == map["session_id" := id]
    && 0 < num == SeqOf(pfx, db) && UnusedSeq(pfx, db, num)
    && forall x :: x == id || HashOf(pfx, db, x) == map[] || "status" in HashOf(pfx, db, x)
  }

  /** Session x is created before session y. */
  ghost predicate Older(pfx: string, db: Db, x: string, y: string) {
    StoredSeq(pfx, db, x).Some? && StoredSeq(pfx, db, y).Some? && StoredSeq(pfx, db, x).value < StoredSeq(pfx, db, y).value
  }

  class Store {
    const pfx: string
    var db: Db

    ghost predicate Valid() reads this { Settled(pfx, db) }

    constructor (pfx: string)
      ensures Valid() && this.pfx == pfx && forall id :: Stored(pfx, db, id) == None
    {
      this.pfx := pfx;
      db := map[];
      new;
      EmptySettled(pfx);
    }

    method CreateJob(job: Job, now: string) returns (r: Result<(), StoreError>)
      requires Valid()
      modifies this`db
      ensures Valid()
      ensures r == if TrimSpace(job.sessionId) == "" then Err(BlankId)
                   else if old(SeqOf(pfx, db)) == MAX_INT64 then Err(SeqFailed)
                   else if old(Stored(pfx, db, job.sessionId)).Some? then Err(AlreadyExists)
                   else Ok(())
      ensures r.Ok? ==> Stored(pfx, db, job.sessionId) == Some(if job.status.None? then job.(status := Some(Pending)) else job)
      ensures r.Ok? ==> Times(pfx, db, job.sessionId) == (now, now)
      ensures r.Ok? ==> forall x :: old(Stored(pfx, db, x)).Some? ==> Older(pfx, db, x, job.sessionId)
      ensures forall x :: x != job.sessionId || r.Err? ==> HashOf(pfx, db, x) == old(HashOf(pfx, db, x))
    {
      if TrimSpace(job.sessionId) == "" { return Err(BlankId); }
      var incr := Incr(db, SeqKey(pfx));
      if incr.None? { return Err(SeqFailed); }
      NumberLaw(pfx, db);
      db := incr.value.0;
      var num := incr.value.1;
      if "session_id" in HashOf(pfx, db, job.sessionId) { return Err(AlreadyExists); }
      ClaimLaw(pfx, old(db), job.sessionId);
      db := HSet(db, JobKey(pfx, job.sessionId), map["session_id" := job.sessionId]);
      FinishCreate(job, num, now);
      return Ok(());
    }

    /** The create transaction on a session just claimed. */
    method FinishCreate(job: Job, num: Int64, now: string)
      requires JustClaimed(pfx, db, job.sessionId, num)
      modifies this`db
      ensures Valid()
      ensures Stored(pfx, db, job.sessionId) == Some(if job.status.None? then job.(status := Some(Pending)) else job)
      ensures Times(pfx, db, job.sessionId) == (now, now)
      ensures forall x :: x != job.sessionId ==> HashOf(pfx, db, x) == old(HashOf(pfx, db, x))
      ensures forall x :: x != job.sessionId && Stored(pfx, db, x).Some? ==> Older(pfx, db, x, job.sessionId)
    {
      CommitCreateKeeps(pfx, db, job, num, now);
      CommitCreateView(pfx, db, job, num, now);
      CreatedJob(pfx, db, job, num, now);
      CreatedTimes(pfx, db, job, num, now);
      CreatedLast(pfx, db, job, num, now);
      db := CommitCreate(pfx, db, job, num, now);
    }

    method GetJob(id: string) returns (r: Result<Job, StoreError>)
      ensures r == match Stored(pfx, db, id) case None => Err(NotFound) case Some(job) => Ok(job)
    {
      var arr := HGetAll(db, JobKey(pfx, id));
      var fields := HashToMap(arr);
      if |fields| == 0 { return Err(NotFound); }
      return Ok(JobFromFields(fields));
    }

    method SetJobStatus(id: string, st: Status, result: string, error: string, now: string, clock: int)
      returns (r: Result<(), StoreError>)
      requires Valid()
      modifies this`db
      ensures Valid()
      ensures r == match old(Stored(pfx, db, id)) case None => Err(NotFound) case Some(_) => Ok(())
      ensures r.Err? ==> db == old(db)
      ensures r.Ok? ==> Stored(pfx, db, id) == Some(old(Stored(pfx, db, id)).value.(status := Some(st), result := result, error := error))
      ensures r.Ok? ==> Times(pfx, db, id) == (old(Times(pfx, db, id)).0, now)
      ensures StoredSeq(pfx, db, id) == old(StoredSeq(pfx, db, id))
      ensures forall x :: x != id ==> HashOf(pfx, db, x) == old(HashOf(pfx, db, x))
    {
      var old', score := Field(HashOf(pfx, db, id), "status"), Field(HashOf(pfx, db, id), "seq");
      if old' == "" && score == "" {
        var job := GetJob(id);
        if job.Err? { return Err(job.error); }
      }
      assert SoundHash(pfx, db, id);
      SetLaw(pfx, db, id, st, result, error, now, clock);
      db := CommitSet(pfx, db, id, st, result, error, old', score, now, clock);
      return Ok(());
    }

    method ListJobsByStatus(st: Status) returns (jobs: seq<Job>)
      requires Valid()
      ensures IsListing(pfx, db, st, jobs)
    {
      var ids := ZRange(db, StatusKey(pfx, st));
      jobs := Collect(ids);
      ListLaw(pfx, db, st, ids);
    }

    method Collect(ids: seq<string>) returns (jobs: seq<Job>)
      ensures jobs == Found(pfx, db, ids)
    {
      jobs := [];
      for n := 0 to |ids|
        invariant jobs == Found(pfx, db, ids[..n])
      {
        var job := GetJob(ids[n]);
        assert ids[..n + 1][..n] == ids[..n];
        if job.Ok? { jobs := jobs + [job.value]; }
      }
      assert ids[..|ids|] == ids;
    }
  }

  /** The jobs read for a list of sessions, absent ones skipped. */
  function Found(pfx: string, db: Db, ids: seq<string>): seq<Job> {
    if ids == [] then []
    else
      var job := Stored(pfx, db, ids[|ids| - 1]);
      Found(pfx, db, ids[..|ids| - 1]) + if job.Some? then [job.value] else []
  }

  lemma EmptySettled(pfx: string)
    ensures Settled(pfx, map[]) && forall id :: Stored(pfx, map[], id) == None
  {
    var db: Db := map[];
    forall id ensures HashOf(pfx, db, id) == map[] && AgreeAt(pfx, db, id) && SoundHash(pfx, db, id) && StoredSeq(pfx, db, id) == None {}
  }

  lemma CreatedJob(pfx: string, db: Db, job: Job, num: Int64, now: string)
    requires Typed(pfx, db) && HashOf(pfx, db, job.sessionId) == map["session_id" := job.sessionId]
    ensures var d := CommitCreate(pfx, db, job, num, now);
            Stored(pfx, d, job.sessionId) == Some(if job.status.None? then job.(status := Some(Pending)) else job)
  {
    CommitCreateView(pfx, db, job, num, now);
    var h := map["session_id" := job.sessionId] + CreateFields(job, num, now);
    assert Field(h, "session_id") == job.sessionId && Field(h, "kind") == job.kind && Field(h, "target_id") == job.targetId;
    assert Field(h, "input") == job.input && Field(h, "result") == job.result && Field(h, "error") == job.error;
    assert Field(h, "status") == StatusText(Effective(job.status));
  }

  lemma CreatedTimes(pfx: string, db: Db, job: Job, num: Int64, now: string)
    requires Typed(pfx, db)
    ensures Times(pfx, CommitCreate(pfx, db, job, num, now), job.sessionId) == (now, now)
  {
    CommitCreateView(pfx, db, job, num, now);
  }

  lemma NumberLaw(pfx: string, db: Db)
    requires Settled(pfx, db) && Incr(db, SeqKey(pfx)).Some?
    ensures var d := Incr(db, SeqKey(pfx)).value.0;
            Settled(pfx, d) && forall x :: HashOf(pfx, d, x) == HashOf(pfx, db, x)
  {
    IncrView(pfx, db);
    IncrKeeps(pfx, db);
  }

  lemma ClaimLaw(pfx: string, db: Db, id: string)
    requires Settled(pfx, db) && Incr(db, SeqKey(pfx)).Some? && "session_id" !in HashOf(pfx, db, id)
    ensures HashOf(pfx, db, id) == map[]
    ensures var (d, num) := Incr(db, SeqKey(pfx)).value; var c := HSet(d, JobKey(pfx, id), map["session_id" := id]);
            JustClaimed(pfx, c, id, num) && forall x :: x != id ==> HashOf(pfx, c, x) == HashOf(pfx, db, x)
  {
    assert SoundHash(pfx, db, id);
    var (d, num) := Incr(db, SeqKey(pfx)).value;
    IncrView(pfx, db);
    IncrKeeps(pfx, db);
    ClaimKeeps(pfx, d, id);
    HSetView(pfx, d, id, map["session_id" := id]);
    ClaimedHash(pfx, d, id);
  }

  /** A claim fills in no number. */
  lemma ClaimedHash(pfx: string, db: Db, id: string)
    requires Typed(pfx, db) && HashOf(pfx, db, id) == map[]
    ensures var c := HSet(db, JobKey(pfx, id), map["session_id" := id]);
            && HashOf(pfx, c, id) == map["session_id" := id]
            && forall x :: StoredSeq(pfx, c, x) == StoredSeq(pfx, db, x)
  {
    HSetView(pfx, db, id, map["session_id" := id]);
    assert Field(map["session_id" := id], "seq") == "";
  }

  lemma CreatedLast(pfx: string, db: Db, job: Job, num: Int64, now: string)
    requires JustClaimed(pfx, db, job.sessionId, num)
    ensures var d := CommitCreate(pfx, db, job, num, now);
            forall x :: x != job.sessionId && Stored(pfx, d, x).Some? ==> Older(pfx, d, x, job.sessionId)
  {
    var d := CommitCreate(pfx, db, job, num, now);
    CommitCreateView(pfx, db, job, num, now);
    CreatedHash(pfx, db, job, num, now);
    forall x | x != job.sessionId && Stored(pfx, d, x).Some? ensures Older(pfx, d, x, job.sessionId) {
      assert SoundHash(pfx, db, x);
      assert StoredSeq(pfx, d, x) == StoredSeq(pfx, db, x) != Some(num);
    }
  }

  /** A status write keeps the store settled and changes only status, result and error of its session. */
  lemma SetLaw(pfx: string, db: Db, id: string, st: Status, result: string, error: string, now: string, clock: int)
    requires Settled(pfx, db) && HashOf(pfx, db, id) != map[]
    ensures var d := CommitSet(pfx, db, id, st, result, error, Field(HashOf(pfx, db, id), "status"), Field(HashOf(pfx, db, id), "seq"), now, clock);
            && Settled(pfx, d) && StoredSeq(pfx, d, id) == StoredSeq(pfx, db, id)
            && Stored(pfx, d, id) == Some(Stored(pfx, db, id).value.(status := Some(st), result := result, error := error))
            && Times(pfx, d, id) == (Times(pfx, db, id).0, now)
            && forall x :: x != id ==> HashOf(pfx, d, x) == HashOf(pfx, db, x)
  {
    assert SoundHash(pfx, db, id);
    var old' :| HasStatus(pfx, db, id, old');
    var h := HashOf(pfx, db, id);
    var d := CommitSet(pfx, db, id, st, result, error, StatusText(old'), h["seq"], now, clock);
    CommitSetKeeps(pfx, db, id, st, result, error, old', now, clock);
    CommitSetView(pfx, db, id, st, result, error, old', h["seq"], StoredSeq(pfx, db, id).value, now, clock);
    SetHash(pfx, db, d, id, st, result, error, now);
    SetJob(h, st, result, error, now);
  }

  lemma SetJob(h: map<string, string>, st: Status, result: string, error: string, now: string)
    ensures JobFromFields(h + SetFields(st, result, error, now)) == JobFromFields(h).(status := Some(st), result := result, error := error)
    ensures "status" in h + SetFields(st, result, error, now)
    ensures Field(h + SetFields(st, result, error, now), "updated_at") == now
    ensures Field(h + SetFields(st, result, error, now), "created_at") == Field(h, "created_at")
  {
    var g := h + SetFields(st, result, error, now);
    assert Field(g, "session_id") == Field(h, "session_id") && Field(g, "kind") == Field(h, "kind");
    assert Field(g, "target_id") == Field(h, "target_id") && Field(g, "input") == Field(h, "input");
    assert Field(g, "status") == StatusText(st) && Field(g, "result") == result && Field(g, "error") == error;
  }

  lemma {:induction false} FoundAll(pfx: string, db: Db, ids: seq<string>)
    requires forall i :: 0 <= i < |ids| ==> Stored(pfx, db, ids[i]).Some?
    ensures |Found(pfx, db, ids)| == |ids|
    ensures forall i :: 0 <= i < |ids| ==> Found(pfx, db, ids)[i] == Stored(pfx, db, ids[i]).value
  {
    if ids != [] { FoundAll(pfx, db, ids[..|ids| - 1]); }
  }

  /** Listing an index in score order yields exactly the jobs in that status, oldest first. */
  lemma ListLaw(pfx: string, db: Db, st: Status, ids: seq<string>)
    requires Settled(pfx, db) && IsRange(IndexOf(pfx, db, st), ids)
    ensures IsListing(pfx, db, st, Found(pfx, db, ids))
  {
    forall i | 0 <= i < |ids| ensures Indexed(pfx, db, st, ids[i]) { IndexedIsStored(pfx, db, st, ids[i]); }
    FoundAll(pfx, db, ids);
    var jobs := Found(pfx, db, ids);
    forall id | Stored(pfx, db, id).Some? && Stored(pfx, db, id).value.status == Some(st) ensures Stored(pfx, db, id).value in jobs {
      ListComplete(pfx, db, st, ids, id);
    }
    forall i, j | 0 <= i < j < |jobs| ensures Older(pfx, db, jobs[i].sessionId, jobs[j].sessionId) {
      IndexOrder(pfx, db, st, ids[i], ids[j]);
    }
  }

  lemma ListComplete(pfx: string, db: Db, st: Status, ids: seq<string>, id: string)
    requires Settled(pfx, db) && IsRange(IndexOf(pfx, db, st), ids)
    requires forall i :: 0 <= i < |ids| ==> Stored(pfx, db, ids[i]).Some?
    requires Stored(pfx, db, id).Some? && Stored(pfx, db, id).value.status == Some(st)
    ensures Stored(pfx, db, id).value in Found(pfx, db, ids)
  {
    FoundAll(pfx, db, ids);
    StoredIsIndexed(pfx, db, st, id);
    var i :| 0 <= i < |ids| && ids[i] == id;
    assert Found(pfx, db, ids)[i] == Stored(pfx, db, id).value;
  }

  ghost predicate Indexed(pfx: string, db: Db, st: Status, id: string) {
    var job := Stored(pfx, db, id);
    && job.Some? && job.value.status == Some(st) && job.value.sessionId == id
    && id in IndexOf(pfx, db, st) && StoredSeq(pfx, db, id) == Some(IndexOf(pfx, db, st)[id])
  }

  lemma IndexedIsStored(pfx: string, db: Db, st: Status, id: string)
    requires Settled(pfx, db) && id in IndexOf(pfx, db, st)
    ensures Indexed(pfx, db, st, id)
  {
    assert AgreeAt(pfx, db, id) && SoundHash(pfx, db, id);
    assert HasStatus(pfx, db, id, st);
  }

  lemma StoredIsIndexed(pfx: string, db: Db, st: Status, id: string)
    requires Settled(pfx, db) && Stored(pfx, db, id).Some? && Stored(pfx, db, id).value.status == Some(st)
    ensures id in IndexOf(pfx, db, st)
  {
    assert AgreeAt(pfx, db, id);
    assert HasStatus(pfx, db, id, st);
  }

  lemma IndexOrder(pfx: string, db: Db, st: Status, x: string, y: string)
    requires Settled(pfx, db) && x != y && Indexed(pfx, db, st, x) && Indexed(pfx, db, st, y)
    requires IndexOf(pfx, db, st)[x] <= IndexOf(pfx, db, st)[y]
    ensures Older(pfx, db, x, y)
  {
    assert StoredSeq(pfx, db, x) != StoredSeq(pfx, db, y);
  }
}
