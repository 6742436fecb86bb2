/** Commands, transactions and the connection pool (internal/store/redis/client.go and the cmd and
    multi methods of internal/store/redis/redis.go). */
module ConnPool {
  import opened Prelude
  import opened Decimal
  import opened Resp
  import RespLaws

  /** What the network does once commands are flushed: it fails, or these bytes arrive before the
      deadline or the end of the stream. */
  datatype Wire = Down | Up(text: string)

  /** The server answers every command with one reply; the stream may break off anywhere. */
  ghost predicate Answers(wire: Wire, replies: seq<Reply>) {
    && (forall i :: 0 <= i < |replies| ==> RespLaws.Sized(replies[i]) && RespLaws.LineSafe(replies[i]))
    && (wire.Up? ==> wire.text <= EncodeAll(replies))
  }

  ghost predicate Whole(wire: Wire, replies: seq<Reply>) {
    wire == Up(EncodeAll(replies))
  }

  /** How a call ends: a value, a Redis-level error, or any other error, after which the caller
      discards the connection. */
  datatype Outcome<T> = Done(value: T) | RedisError(msg: string) | OtherError

  // ------------------------------------------------------------- reading a prefix

  lemma {:induction false} LineLengthExtends(s: string, t: string)
    requires LineLength(s) < |s|
    ensures LineLength(s + t) == LineLength(s)
  {
    assert (s + t)[0] == s[0];
    if s[0] != '\n' {
      assert (s + t)[1..] == s[1..] + t;
      LineLengthExtends(s[1..], t);
    }
  }

  lemma LineExtends(s: string, t: string)
    requires Line(s).Got?
    ensures Line(s + t) == Got(Line(s).value, Line(s).rest + t)
  {
    var n := LineLength(s);
    LineLengthExtends(s, t);
    assert (s + t)[..n] == s[..n] && (s + t)[n+1..] == s[n+1..] + t;
  }

  /** A reply that can be read is read the same when more bytes follow. */
  lemma {:induction false} ReadOneExtends(s: string, t: string)
    requires ReadOne(s).Got?
    ensures ReadOne(s + t) == Got(ReadOne(s).value, ReadOne(s).rest + t)
    decreases |s|, 0
  {
    LineExtends(s, t);
    var line, rest := Line(s).value, Line(s).rest;
    if line[0] == '$' {
      BulkExtends(line, rest, t);
    } else if line[0] == '*' {
      var n := ParseInt(line[1..]).value;
      if n >= 0 { ReadManyExtends(rest, n, t); }
    }
  }

  lemma BulkExtends(line: string, rest: string, t: string)
    requires line != "" && ParseInt(line[1..]).Some?
    ensures var n := ParseInt(line[1..]).value;
            0 <= n && n + 2 <= |rest| ==> (rest + t)[..n] == rest[..n] && (rest + t)[n+2..] == rest[n+2..] + t
  {
  }

  lemma {:induction false} ReadManyExtends(s: string, n: nat, t: string)
    requires ReadMany(s, n).Got?
    ensures ReadMany(s + t, n) == Got(ReadMany(s, n).value, ReadMany(s, n).rest + t)
    decreases |s|, 1, n
  {
    if n > 0 {
      ReadManyStep(s, n);
      ReadManyStep(s + t, n);
      ReadOneExtends(s, t);
      ReadManyExtends(ReadOne(s).rest, n - 1, t);
    }
  }

  /** If as many replies as were promised can be read, nothing is left over, and they are the
      server's replies. */
  lemma NothingLeft(text: string, replies: seq<Reply>)
    requires text <= EncodeAll(replies) && ReadMany(text, |replies|).Got?
    requires forall i :: 0 <= i < |replies| ==> RespLaws.Sized(replies[i]) && RespLaws.LineSafe(replies[i])
    ensures ReadMany(text, |replies|) == Got(replies, "")
  {
    var all := EncodeAll(replies);
    var tail := all[|text|..];
    assert text + tail == all && all + "" == all;
    RespLaws.RepliesRoundTrip(replies, "");
    ReadManyExtends(text, |replies|, tail);
    assert ReadMany(text, |replies|).rest + tail == "";
  }

  // --------------------------------------------------------------- do and doMulti

  /** No unflushed command bytes, no unread reply bytes. */
  ghost predicate Aligned(c: Conn)
    reads c
  {
    c.unsent == "" && c.unread == ""
  }

  method Flush(c: Conn, wire: Wire) returns (ok: bool)
    modifies c
    ensures ok == wire.Up?
    ensures ok ==> c.unsent == "" && c.unread == old(c.unread) + wire.text && c.sent == old(c.sent) + old(c.unsent)
    ensures !ok ==> c.sent == old(c.sent)
  {
    if wire.Down? {
      return false;
    }
    c.sent := c.sent + c.unsent;
    c.unsent := "";
    c.unread := c.unread + wire.text;
    return true;
  }

  /** One command. Unless the connection is to be discarded, the caller gets the server's reply to
      this very command and the connection is aligned again. */
  method Do(c: Conn, args: seq<string>, wire: Wire, ghost reply: Reply) returns (r: Outcome<Reply>)
    requires Aligned(c) && Answers(wire, [reply])
    modifies c
    ensures !r.OtherError? ==> Aligned(c)
    ensures r.Done? ==> r.value == reply && !reply.Error?
    ensures r.RedisError? ==> reply == Error(r.msg)
    ensures Whole(wire, [reply]) ==> !r.OtherError?
    ensures if wire.Up? then c.sent == old(c.sent) + CommandText(args) else r.OtherError?
  {
    c.WriteCommand(args);
    assert c.unsent == CommandText(args);
    var ok := Flush(c, wire);
    if !ok {
      return OtherError;
    }
    assert c.unread == wire.text;
    OneOfMany(wire.text, reply);
    var got := c.ReadReply();
    if got.None? {
      return OtherError;
    }
    if got.value.Error? {
      return RedisError(got.value.str);
    }
    return Done(got.value);
  }

  lemma OneOfMany(text: string, reply: Reply)
    requires text <= EncodeAll([reply]) && RespLaws.Sized(reply) && RespLaws.LineSafe(reply)
    ensures ReadOne(text).Got? ==> ReadOne(text) == Got(reply, "")
    ensures text == EncodeAll([reply]) ==> ReadOne(text).Got?
  {
    ReadManyStep(text, 1);
    assert ReadMany("", 0) == Got([], "");
    if ReadOne(text).Got? {
      NothingLeft(text, [reply]);
    }
    RespLaws.RepliesRoundTrip([reply], "");
    assert EncodeAll([reply]) + "" == EncodeAll([reply]);
  }

  /** The first error among the replies carries the message. */
  ghost predicate FirstErrorIs(arr: seq<Reply>, msg: string) {
    exists k :: 0 <= k < |arr| && arr[k] == Error(msg) && forall j :: 0 <= j < k ==> !arr[j].Error?
  }

  /** Reads replies and ignores them, as doMulti does for MULTI and the queued commands. */
  method Discard(c: Conn, n: nat) returns (ok: bool)
    modifies c`unread
    ensures ok == ReadMany(old(c.unread), n).Got?
    ensures ok ==> c.unread == ReadMany(old(c.unread), n).rest
  {
    var replies := c.ReadArray(n);
    return replies.Some?;
  }

  function CommandTexts(cmds: seq<seq<string>>): string {
    if cmds == [] then "" else CommandText(cmds[0]) + CommandTexts(cmds[1..])
  }

  lemma {:induction false} CommandTextsLast(cmds: seq<seq<string>>, last: seq<string>)
    ensures CommandTexts(cmds + [last]) == CommandTexts(cmds) + CommandText(last)
  {
    var all := cmds + [last];
    if cmds == [] {
      assert all[0] == last && all[1..] == [];
    } else {
      assert all[0] == cmds[0] && all[1..] == cmds[1..] + [last];
      CommandTextsLast(cmds[1..], last);
      Regroup(CommandText(cmds[0]), CommandTexts(cmds[1..]), CommandText(last));
    }
  }

  /** What a transaction sends. */
  function TransactionText(cmds: seq<seq<string>>): string {
    CommandText(["MULTI"]) + CommandTexts(cmds) + CommandText(["EXEC"])
  }

  method WriteAll(c: Conn, cmds: seq<seq<string>>)
    requires c.unsent == ""
    modifies c`unsent
    ensures c.unsent == TransactionText(cmds)
  {
    c.WriteCommand(["MULTI"]);
    assert c.unsent == CommandText(["MULTI"]);
    for i := 0 to |cmds|
      invariant c.unsent == CommandText(["MULTI"]) + CommandTexts(cmds[..i])
    {
      c.WriteCommand(cmds[i]);
      assert cmds[..i+1] == cmds[..i] + [cmds[i]];
      CommandTextsLast(cmds[..i], cmds[i]);
      Regroup(CommandText(["MULTI"]), CommandTexts(cmds[..i]), CommandText(cmds[i]));
    }
    assert cmds[..|cmds|] == cmds;
    c.WriteCommand(["EXEC"]);
  }

  method ScanErrors(arr: seq<Reply>) returns (e: Option<string>)
    ensures e.None? ==> forall i :: 0 <= i < |arr| ==> !arr[i].Error?
    ensures e.Some? ==> FirstErrorIs(arr, e.value)
  {
    for i := 0 to |arr|
      invariant forall j :: 0 <= j < i ==> !arr[j].Error?
    {
      if arr[i].Error? {
        return Some(arr[i].str);
      }
    }
    return None;
  }

  /** A transaction: one reply for MULTI, one per queued command, one for EXEC. */
  method DoMulti(c: Conn, cmds: seq<seq<string>>, wire: Wire, ghost replies: seq<Reply>) returns (r: Outcome<seq<Reply>>)
    requires Aligned(c) && Answers(wire, replies) && |replies| == |cmds| + 2
    modifies c
    ensures !r.OtherError? ==> Aligned(c)
    ensures cmds == [] ==> r == Done([])
    ensures cmds != [] ==> var exec := replies[|cmds|+1];
      && (r.Done? ==> !exec.Error? && !exec.NilBulk? && !exec.NilArray? && r.value == if exec.Array? then exec.arr else [])
      && (r.Done? ==> forall i :: 0 <= i < |r.value| ==> !r.value[i].Error?)
      && (r.RedisError? ==> exec == Error(r.msg) || (exec.Array? && FirstErrorIs(exec.arr, r.msg)))
      && (Whole(wire, replies) && r.OtherError? ==> exec.NilBulk? || exec.NilArray?)
    ensures cmds != [] ==> if wire.Up? then c.sent == old(c.sent) + TransactionText(cmds) else r.OtherError?
    ensures cmds == [] ==> c.sent == old(c.sent)
  {
    if cmds == [] {
      return Done([]);
    }
    WriteAll(c, cmds);
    var ok := Flush(c, wire);
    if !ok {
      return OtherError;
    }
    assert c.unread == wire.text;
    TransactionReads(wire.text, |cmds| + 1, replies);
    ok := Discard(c, |cmds| + 1);
    if !ok {
      return OtherError;
    }
    var exec := c.ReadReply();
    if exec.None? {
      return OtherError;
    }
    assert exec.value == replies[|cmds|+1];
    r := ClassifyExec(exec.value);
  }

  method ClassifyExec(exec: Reply) returns (r: Outcome<seq<Reply>>)
    ensures r.Done? ==> !exec.Error? && r.value == if exec.Array? then exec.arr else []
    ensures r.Done? ==> forall i :: 0 <= i < |r.value| ==> !r.value[i].Error?
    ensures forall m :: r == RedisError(m) <==> exec == Error(m) || (exec.Array? && FirstErrorIs(exec.arr, m))
    ensures r.OtherError? <==> exec.NilBulk? || exec.NilArray?
  {
    match exec
    case Error(m) => return RedisError(m);
    case NilBulk => return OtherError;
    case NilArray => return OtherError;
    case Array(arr) =>
      var e := ScanErrors(arr);
      if e.Some? { return RedisError(e.value); }
      return Done(arr);
    case _ => return Done([]);
  }

  lemma {:induction false} EncodeAllLast(rs: seq<Reply>, e: Reply)
    ensures EncodeAll(rs + [e]) == EncodeAll(rs) + Encode(e)
  {
    var all := rs + [e];
    if rs == [] {
      assert all[0] == e && all[1..] == [] && Encode(e) + "" == Encode(e);
    } else {
      assert all[0] == rs[0] && all[1..] == rs[1..] + [e];
      EncodeAllLast(rs[1..], e);
      Regroup(Encode(rs[0]), EncodeAll(rs[1..]), Encode(e));
    }
  }

  /** The replies of a transaction: n that are ignored, and the last one. */
  lemma TransactionReads(text: string, n: nat, replies: seq<Reply>)
    requires |replies| == n + 1 && text <= EncodeAll(replies)
    requires forall i :: 0 <= i < |replies| ==> RespLaws.Sized(replies[i]) && RespLaws.LineSafe(replies[i])
    ensures ReadMany(text, n).Got? && ReadOne(ReadMany(text, n).rest).Got? ==>
      ReadOne(ReadMany(text, n).rest) == Got(replies[n], "")
    ensures text == EncodeAll(replies) ==> ReadMany(text, n).Got? && ReadOne(ReadMany(text, n).rest).Got?
  {
    var queued, exec := replies[..n], replies[n];
    var all := EncodeAll(replies);
    assert replies == queued + [exec];
    EncodeAllLast(queued, exec);
    RespLaws.RepliesRoundTrip(queued, Encode(exec));
    RespLaws.ReplyRoundTrip(exec, "");
    assert Encode(exec) + "" == Encode(exec);
    var tail := all[|text|..];
    assert text + tail == all;
    if ReadMany(text, n).Got? && ReadOne(ReadMany(text, n).rest).Got? {
      var rest := ReadMany(text, n).rest;
      ReadManyExtends(text, n, tail);
      ReadOneExtends(rest, tail);
      assert ReadOne(rest).rest + tail == "";
    }
  }

  lemma {:induction false} CommandTextsRead(cmds: seq<seq<string>>, rest: string)
    requires forall i :: 0 <= i < |cmds| ==> Writable(cmds[i])
    ensures ReadMany(CommandTexts(cmds) + rest, |cmds|) == Got(Requests(cmds), rest)
  {
    if cmds == [] {
      assert CommandTexts(cmds) + rest == rest && Requests(cmds) == [];
    } else {
      var tail := CommandTexts(cmds[1..]) + rest;
      Regroup(CommandText(cmds[0]), CommandTexts(cmds[1..]), rest);
      RespLaws.CommandRoundTrip(cmds[0], tail);
      ReadManyStep(CommandTexts(cmds) + rest, |cmds|);
      CommandTextsRead(cmds[1..], rest);
      RequestsStep(cmds);
    }
  }

  lemma RequestsStep(cmds: seq<seq<string>>)
    requires cmds != []
    ensures Requests(cmds) == [RespLaws.RequestOf(cmds[0])] + Requests(cmds[1..])
  {
  }

  ghost predicate Writable(args: seq<string>) {
    |args| <= MAX_INT64 && forall i :: 0 <= i < |args| ==> |args[i]| <= MAX_INT64
  }

  ghost function Requests(cmds: seq<seq<string>>): seq<Reply> {
    seq(|cmds|, i requires 0 <= i < |cmds| => RespLaws.RequestOf(cmds[i]))
  }

  /** A server reading a transaction sees MULTI, each command with its arguments, and EXEC: as many
      requests as doMulti reads replies. */
  lemma TransactionReadBack(cmds: seq<seq<string>>)
    requires forall i :: 0 <= i < |cmds| ==> Writable(cmds[i])
    ensures var all := [["MULTI"]] + cmds + [["EXEC"]];
            |all| == |cmds| + 2 && ReadMany(TransactionText(cmds), |all|) == Got(Requests(all), "")
  {
    var all := [["MULTI"]] + cmds + [["EXEC"]];
    forall i | 0 <= i < |all| ensures Writable(all[i]) {
      assert Writable(["MULTI"]) && Writable(["EXEC"]);
      if 0 < i < |all| - 1 { assert all[i] == cmds[i-1]; }
    }
    CommandTextsRead(all, "");
    AllTexts(cmds);
    assert CommandTexts(all) + "" == CommandTexts(all);
  }

  lemma AllTexts(cmds: seq<seq<string>>)
    ensures CommandTexts([["MULTI"]] + cmds + [["EXEC"]]) == TransactionText(cmds)
  {
    var most := [["MULTI"]] + cmds;
    assert most[0] == ["MULTI"] && most[1..] == cmds;
    CommandTextsLast(most, ["EXEC"]);
  }

  // ------------------------------------------------------------------------- pool

  /** What happens while a new connection is dialed: no connection, or one on which the AUTH and
      SELECT commands are answered. */
  datatype Dialing = Refused | Accepted(auth: Wire, select: Wire)

  const MAX_IDLE := 8

  ghost predicate Ends(s: string, t: string) {
    exists before :: s == before + t
  }

  class Pool {
    const password: string
    const db: int
    var conns: seq<Conn>

    /** Every pooled connection is aligned, and none is pooled twice. */
    ghost predicate Valid()
      reads this, conns
    {
      && |conns| <= MAX_IDLE
      && (forall i :: 0 <= i < |conns| ==> Aligned(conns[i]))
      && NoDup(conns)
    }

    constructor (password: string, db: int)
      ensures Valid() && conns == []
    {
      this.password, this.db, conns := password, db, [];
    }

    /** Takes the most recently returned connection, or dials. What it hands out is aligned and no
        longer in the pool. */
    method Get(dialing: Dialing, ghost auth: Reply, ghost select: Reply) returns (c: Conn?)
      requires Valid()
      requires dialing.Accepted? ==> Answers(dialing.auth, [auth]) && Answers(dialing.select, [select])
      modifies this
      ensures Valid() && conns <= old(conns)
      ensures c != null ==> Aligned(c) && c !in conns && (c in old(conns) || fresh(c))
      ensures old(conns) != [] ==> c == old(conns)[|old(conns)|-1] && conns == old(conns)[..|old(conns)|-1]
    {
      if |conns| > 0 {
        c := conns[|conns|-1];
        conns := conns[..|conns|-1];
        return;
      }
      c := Dial(dialing, auth, select);
    }

    method Dial(dialing: Dialing, ghost auth: Reply, ghost select: Reply) returns (c: Conn?)
      requires dialing.Accepted? ==> Answers(dialing.auth, [auth]) && Answers(dialing.select, [select])
      ensures c != null ==> fresh(c) && Aligned(c)
      ensures c != null ==> c.sent == "" + (if password != "" then CommandText(["AUTH", password]) else "")
                                      + (if db != 0 then CommandText(["SELECT", Itoa(db)]) else "")
      ensures c != null ==> (password != "" ==> !auth.Error?) && (db != 0 ==> !select.Error?)
    {
      if dialing.Refused? {
        return null;
      }
      var d := new Conn();
      var ok := Greet(d, password != "", ["AUTH", password], dialing.auth, auth);
      if !ok { return null; }
      ok := Greet(d, db != 0, ["SELECT", Itoa(db)], dialing.select, select);
      if !ok { return null; }
      return d;
    }

    /** One of the commands sent on a new connection, where it is called for. */
    static method Greet(d: Conn, needed: bool, args: seq<string>, wire: Wire, ghost reply: Reply) returns (ok: bool)
      requires Aligned(d) && Answers(wire, [reply])
      modifies d
      ensures ok ==> Aligned(d) && d.sent == old(d.sent) + (if needed then CommandText(args) else "") && (needed ==> !reply.Error?)
    {
      if !needed {
        assert d.sent + "" == d.sent;
        return true;
      }
      var r := Do(d, args, wire, reply);
      return r.Done?;
    }

    /** Keeps the connection unless the pool is full. */
    method Put(c: Conn)
      requires Valid() && Aligned(c) && c !in conns
      modifies this
      ensures Valid() && conns == if |old(conns)| < 8 then old(conns) + [c] else old(conns)
    {
      if |conns| < MAX_IDLE {
        conns := conns + [c];
      }
    }

    /** One command through the pool. Redis errors return the connection, other errors drop it. */
    method Cmd(args: seq<string>, dialing: Dialing, wire: Wire, ghost auth: Reply, ghost select: Reply, ghost reply: Reply)
      returns (r: Outcome<Reply>)
      requires Valid() && Answers(wire, [reply])
      requires dialing.Accepted? ==> Answers(dialing.auth, [auth]) && Answers(dialing.select, [select])
      modifies this, conns
      ensures Valid() && forall c <- conns :: c in old(conns) || fresh(c)
      ensures r.Done? ==> r.value == reply && !reply.Error?
      ensures r.RedisError? ==> reply == Error(r.msg)
      ensures !r.OtherError? ==> conns != [] && Ends(conns[|conns|-1].sent, CommandText(args))
    {
      var c := Get(dialing, auth, select);
      if c == null {
        return OtherError;
      }
      ghost var before := c.sent;
      r := Do(c, args, wire, reply);
      assert !r.OtherError? ==> c.sent == before + CommandText(args);
      if !r.OtherError? {
        Put(c);
      }
    }

    /** One transaction through the pool. */
    method Multi(cmds: seq<seq<string>>, dialing: Dialing, wire: Wire, ghost auth: Reply, ghost select: Reply, ghost replies: seq<Reply>)
      returns (r: Outcome<seq<Reply>>)
      requires Valid() && Answers(wire, replies) && |replies| == |cmds| + 2
      requires dialing.Accepted? ==> Answers(dialing.auth, [auth]) && Answers(dialing.select, [select])
      modifies this, conns
      ensures Valid() && forall c <- conns :: c in old(conns) || fresh(c)
      ensures cmds == [] && !r.OtherError? ==> r == Done([])
      ensures cmds != [] ==> var exec := replies[|cmds|+1];
        && (r.Done? ==> !exec.Error? && !exec.NilBulk? && !exec.NilArray? && r.value == if exec.Array? then exec.arr else [])
        && (r.Done? ==> forall i :: 0 <= i < |r.value| ==> !r.value[i].Error?)
        && (r.RedisError? ==> exec == Error(r.msg) || (exec.Array? && FirstErrorIs(exec.arr, r.msg)))
      ensures cmds != [] && !r.OtherError? ==> conns != [] && Ends(conns[|conns|-1].sent, TransactionText(cmds))
    {
      var c := Get(dialing, auth, select);
      if c == null {
        return OtherError;
      }
      ghost var before := c.sent;
      r := DoMulti(c, cmds, wire, replies);
      assert cmds != [] && !r.OtherError? ==> c.sent == before + TransactionText(cmds);
      if !r.OtherError? {
        Put(c);
      }
    }
  }
}
