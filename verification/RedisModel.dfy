/** The keys and commands the Redis store uses (internal/store/redis/redis.go). Each command is an
    atomic operation on the keyspace. */
module RedisModel {
  import opened Prelude
  import opened Decimal
  import opened Jobs

  datatype Value =
    | Counter(n: Int64)
    | Hash(fields: map<string, string>)
    | ZSet(scores: map<string, int>)

  type Db = map<string, Value>

  // ------------------------------------------------------------------------- keys

  function SeqKey(pfx: string): string { pfx + "seq" }
  function JobKey(pfx: string, id: string): string { pfx + ("job:" + id) }
  function StatusKey(pfx: string, st: Status): string { pfx + ("jobs:" + StatusText(st)) }

  lemma SamePrefix(pfx: string, a: string, b: string)
    requires pfx + a == pfx + b
    ensures a == b
  {
    assert (pfx + a)[|pfx|..] == a && (pfx + b)[|pfx|..] == b;
  }

  /** Keys of different kinds, sessions or statuses never collide, whatever the session id. */
  lemma KeysDistinct(pfx: string, id: string, id': string, st: Status, st': Status)
    ensures JobKey(pfx, id) != SeqKey(pfx) && StatusKey(pfx, st) != SeqKey(pfx) && JobKey(pfx, id) != StatusKey(pfx, st)
    ensures JobKey(pfx, id) == JobKey(pfx, id') ==> id == id'
    ensures StatusKey(pfx, st) == StatusKey(pfx, st') ==> st == st'
  {
    var j, j', s, s' := "job:" + id, "job:" + id', "jobs:" + StatusText(st), "jobs:" + StatusText(st');
    assert "seq"[0] == 's' && j[0] == 'j' && s[0] == 'j' && j[3] == ':' && s[3] == 's';
    if pfx + j == pfx + "seq" { SamePrefix(pfx, j, "seq"); }
    if pfx + s == pfx + "seq" { SamePrefix(pfx, s, "seq"); }
    if pfx + j == pfx + s { SamePrefix(pfx, j, s); }
    if pfx + j == pfx + j' {
      SamePrefix(pfx, j, j');
      SamePrefix("job:", id, id');
    }
    if pfx + s == pfx + s' {
      SamePrefix(pfx, s, s');
      SamePrefix("jobs:", StatusText(st), StatusText(st'));
      StatusTextInjective(st, st');
    }
  }

  // ---------------------------------------------------------------------- commands

  function HashAt(db: Db, k: string): map<string, string> {
    if k in db && db[k].Hash? then db[k].fields else map[]
  }

  function ScoresAt(db: Db, k: string): map<string, int> {
    if k in db && db[k].ZSet? then db[k].scores else map[]
  }

  function CounterAt(db: Db, k: string): Int64 {
    if k in db && db[k].Counter? then db[k].n else 0
  }

  /** A write to a key of another type fails and changes nothing. */
  function Incr(db: Db, k: string): Option<(Db, Int64)> {
    if (k in db && !db[k].Counter?) || CounterAt(db, k) == MAX_INT64 then None
    else
      var n: int := CounterAt(db, k) + 1;
      Some((db[k := Counter(n)], n))
  }

  function HSet(db: Db, k: string, fields: map<string, string>): Db {
    if k in db && !db[k].Hash? then db else db[k := Hash(HashAt(db, k) + fields)]
  }

  function ZAdd(db: Db, k: string, score: int, member: string): Db {
    if k in db && !db[k].ZSet? then db else db[k := ZSet(ScoresAt(db, k)[member := score])]
  }

  function ZRem(db: Db, k: string, member: string): Db {
    if k in db && !db[k].ZSet? then db else db[k := ZSet(ScoresAt(db, k) - {member})]
  }

  function Field(fields: map<string, string>, f: string): string {
    if f in fields then fields[f] else ""
  }

  // ------------------------------------------------------------- what a store holds

  function HashOf(pfx: string, db: Db, id: string): map<string, string> {
    HashAt(db, JobKey(pfx, id))
  }

  function IndexOf(pfx: string, db: Db, st: Status): map<string, int> {
    ScoresAt(db, StatusKey(pfx, st))
  }

  function SeqOf(pfx: string, db: Db): Int64 {
    CounterAt(db, SeqKey(pfx))
  }

  /** Every key of the store holds a value of its own type. */
  ghost predicate Typed(pfx: string, db: Db) {
    && (SeqKey(pfx) in db ==> db[SeqKey(pfx)].Counter?)
    && (forall id :: JobKey(pfx, id) in db ==> db[JobKey(pfx, id)].Hash?)
    && (forall st :: StatusKey(pfx, st) in db ==> db[StatusKey(pfx, st)].ZSet?)
  }

  lemma HSetView(pfx: string, db: Db, id: string, fields: map<string, string>)
    requires Typed(pfx, db)
    ensures var d := HSet(db, JobKey(pfx, id), fields);
            && Typed(pfx, d) && SeqOf(pfx, d) == SeqOf(pfx, db)
            && (forall x :: HashOf(pfx, d, x) == if x == id then HashOf(pfx, db, id) + fields else HashOf(pfx, db, x))
            && (forall st :: IndexOf(pfx, d, st) == IndexOf(pfx, db, st))
  {
    forall x ensures JobKey(pfx, id) == JobKey(pfx, x) ==> id == x { KeysDistinct(pfx, id, x, Pending, Pending); }
    forall st ensures StatusKey(pfx, st) != JobKey(pfx, id) { KeysDistinct(pfx, id, id, st, st); }
    KeysDistinct(pfx, id, id, Pending, Pending);
  }

  lemma ZAddView(pfx: string, db: Db, st: Status, score: int, id: string)
    requires Typed(pfx, db)
    ensures var d := ZAdd(db, StatusKey(pfx, st), score, id);
            && Typed(pfx, d) && SeqOf(pfx, d) == SeqOf(pfx, db)
            && (forall x :: HashOf(pfx, d, x) == HashOf(pfx, db, x))
            && (forall s :: IndexOf(pfx, d, s) == if s == st then IndexOf(pfx, db, st)[id := score] else IndexOf(pfx, db, s))
  {
    forall s ensures StatusKey(pfx, st) == StatusKey(pfx, s) ==> st == s { KeysDistinct(pfx, id, id, st, s); }
    forall x ensures StatusKey(pfx, st) != JobKey(pfx, x) { KeysDistinct(pfx, x, x, st, st); }
    KeysDistinct(pfx, id, id, st, st);
  }

  lemma ZRemView(pfx: string, db: Db, st: Status, id: string)
    requires Typed(pfx, db)
    ensures var d := ZRem(db, StatusKey(pfx, st), id);
            && Typed(pfx, d) && SeqOf(pfx, d) == SeqOf(pfx, db)
            && (forall x :: HashOf(pfx, d, x) == HashOf(pfx, db, x))
            && (forall s :: IndexOf(pfx, d, s) == if s == st then IndexOf(pfx, db, st) - {id} else IndexOf(pfx, db, s))
  {
    forall s ensures StatusKey(pfx, st) == StatusKey(pfx, s) ==> st == s { KeysDistinct(pfx, id, id, st, s); }
    forall x ensures StatusKey(pfx, st) != JobKey(pfx, x) { KeysDistinct(pfx, x, x, st, st); }
    KeysDistinct(pfx, id, id, st, st);
  }

  lemma IncrView(pfx: string, db: Db)
    requires Typed(pfx, db)
    ensures var r := Incr(db, SeqKey(pfx));
            r.Some? ==>
              && Typed(pfx, r.value.0) && r.value.1 == SeqOf(pfx, db) as int + 1 == SeqOf(pfx, r.value.0)
              && (forall x :: HashOf(pfx, r.value.0, x) == HashOf(pfx, db, x))
              && (forall s :: IndexOf(pfx, r.value.0, s) == IndexOf(pfx, db, s))
  {
    forall s ensures StatusKey(pfx, s) != SeqKey(pfx) { KeysDistinct(pfx, "", "", s, s); }
    forall x ensures SeqKey(pfx) != JobKey(pfx, x) { KeysDistinct(pfx, x, x, Pending, Pending); }
  }
}
