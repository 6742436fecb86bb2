/** Round trips of the RESP reader. */
module RespLaws {
  import opened Prelude
  import opened Decimal
  import opened Resp

  /** Lengths that a Go int can hold, throughout a reply. */
  ghost predicate Sized(r: Reply) {
    match r
    case Bulk(s) => |s| <= MAX_INT64
    case Array(arr) => |arr| <= MAX_INT64 && forall i :: 0 <= i < |arr| ==> Sized(arr[i])
    case _ => true
  }

  /** No status or error line inside the reply holds a line feed. */
  ghost predicate LineSafe(r: Reply) {
    match r
    case Simple(s) => '\n' !in s
    case Error(s) => '\n' !in s
    case Array(arr) => forall i :: 0 <= i < |arr| ==> LineSafe(arr[i])
    case _ => true
  }

  lemma {:induction false} LineLengthIs(a: string, b: string)
    requires '\n' !in a && (b != "" ==> b[0] == '\n')
    ensures LineLength(a + b) == |a|
  {
    if a == "" {
      assert a + b == b;
    } else {
      assert (a + b)[1..] == a[1..] + b;
      LineLengthIs(a[1..], b);
    }
  }

  /** A line written with CRLF is read back, whatever follows. */
  lemma LineReads(line: string, rest: string)
    requires '\n' !in line
    ensures Line(line + CRLF + rest) == Got(line, rest)
  {
    var s := line + CRLF + rest;
    assert s == (line + "\r") + ("\n" + rest);
    LineLengthIs(line + "\r", "\n" + rest);
    assert s[..|line|+1] == line + "\r" && s[|line|+2..] == rest;
  }

  lemma NumberLine(kind: char, n: Int64, rest: string)
    requires kind != '\n'
    ensures Line([kind] + Itoa(n) + CRLF + rest) == Got([kind] + Itoa(n), rest)
    ensures ParseInt(([kind] + Itoa(n))[1..]) == Some(n)
  {
    assert '\n' !in Itoa(n) by { ItoaChars(n); }
    LineReads([kind] + Itoa(n), rest);
    assert ([kind] + Itoa(n))[1..] == Itoa(n);
    ParseItoa(n);
  }

  lemma ItoaChars(n: int)
    ensures forall c <- Itoa(n) :: c == '-' || IsDigit(c)
  {
  }

  lemma BulkReads(a: string, rest: string)
    requires |a| <= MAX_INT64
    ensures ReadOne(BulkText(a) + rest) == Got(Bulk(a), rest)
  {
    var s := BulkText(a) + rest;
    assert s == "$" + Itoa(|a|) + CRLF + (a + CRLF + rest);
    NumberLine('$', |a|, a + CRLF + rest);
    var body := a + CRLF + rest;
    assert body[..|a|] == a && body[|a|+2..] == rest;
  }

  lemma ArrayReads(n: nat, body: string)
    requires n <= MAX_INT64
    ensures ReadOne("*" + Itoa(n) + CRLF + body) ==
            match ReadMany(body, n) case Broken => Broken case Got(arr, rest) => Got(Array(arr), rest)
  {
    NumberLine('*', n, body);
  }

  lemma NilReads(kind: char, rest: string)
    requires kind == '$' || kind == '*'
    ensures ReadOne([kind] + "-1" + CRLF + rest) == Got(if kind == '$' then NilBulk else NilArray, rest)
  {
    assert Itoa(-1) == "-1" by { assert Digits(1) == "1"; }
    NumberLine(kind, -1, rest);
  }

  lemma StatusReads(kind: char, s: string, rest: string)
    requires '\n' !in s && (kind == '+' || kind == '-')
    ensures ReadOne([kind] + s + CRLF + rest) == Got(if kind == '+' then Simple(s) else Error(s), rest)
  {
    LineReads([kind] + s, rest);
    assert ([kind] + s)[1..] == s;
  }

  lemma IntegerReads(n: Int64, rest: string)
    ensures ReadOne(":" + Itoa(n) + CRLF + rest) == Got(Integer(n), rest)
  {
    NumberLine(':', n, rest);
  }

  lemma FlatRoundTrip(r: Reply, rest: string)
    requires !r.Array? && Sized(r) && LineSafe(r)
    ensures ReadOne(Encode(r) + rest) == Got(r, rest)
  {
    match r
    case Simple(s) => StatusReads('+', s, rest);
    case Error(s) => StatusReads('-', s, rest);
    case Integer(n) => IntegerReads(n, rest);
    case Bulk(s) => BulkReads(s, rest);
    case NilBulk =>
      NilReads('$', rest);
      assert Encode(r) + rest == ['$'] + "-1" + CRLF + rest;
    case NilArray =>
      NilReads('*', rest);
      assert Encode(r) + rest == ['*'] + "-1" + CRLF + rest;
  }

  /** Reading what a server wrote gives the reply back and leaves exactly what follows. */
  lemma {:induction false} ReplyRoundTrip(r: Reply, rest: string)
    requires Sized(r) && LineSafe(r)
    ensures ReadOne(Encode(r) + rest) == Got(r, rest)
    decreases r, 1
  {
    match r
    case Array(arr) =>
      assert Encode(r) + rest == "*" + Itoa(|arr|) + CRLF + (EncodeAll(arr) + rest);
      ArrayReads(|arr|, EncodeAll(arr) + rest);
      RepliesRoundTrip(arr, rest);
    case _ => FlatRoundTrip(r, rest);
  }

  lemma {:induction false} RepliesRoundTrip(rs: seq<Reply>, rest: string)
    requires forall i :: 0 <= i < |rs| ==> Sized(rs[i]) && LineSafe(rs[i])
    ensures ReadMany(EncodeAll(rs) + rest, |rs|) == Got(rs, rest)
    decreases rs, 0
  {
    if rs == [] {
      assert EncodeAll(rs) + rest == rest;
    } else {
      assert EncodeAll(rs) + rest == Encode(rs[0]) + (EncodeAll(rs[1..]) + rest);
      ReplyRoundTrip(rs[0], EncodeAll(rs[1..]) + rest);
      RepliesRoundTrip(rs[1..], rest);
      ReadManyStep(EncodeAll(rs) + rest, |rs|);
      assert [rs[0]] + rs[1..] == rs;
    }
  }

  ghost function Bulks(args: seq<string>): seq<Reply> {
    seq(|args|, i requires 0 <= i < |args| => Bulk(args[i]))
  }

  /** A command as a server reads it. */
  ghost function RequestOf(args: seq<string>): Reply {
    Array(Bulks(args))
  }

  lemma {:induction false} BulkTextsEncode(args: seq<string>)
    ensures BulkTexts(args) == EncodeAll(Bulks(args))
  {
    if args != [] {
      assert Bulks(args)[1..] == Bulks(args[1..]);
      BulkTextsEncode(args[1..]);
    }
  }

  /** A command is read back as the array of its arguments, whatever bytes they hold and whatever
      follows. */
  lemma CommandRoundTrip(args: seq<string>, rest: string)
    requires |args| <= MAX_INT64 && forall i :: 0 <= i < |args| ==> |args[i]| <= MAX_INT64
    ensures ReadOne(CommandText(args) + rest) == Got(RequestOf(args), rest)
    ensures StringsOf(RequestOf(args)) == args
  {
    BulkTextsEncode(args);
    ReplyRoundTrip(Array(Bulks(args)), rest);
  }

  // ------------------------------------------------------- and only for such replies

  lemma {:induction false} LineLengthBounded(a: string, b: string)
    requires '\n' in a
    ensures LineLength(a + b) < |a|
  {
    assert (a + b)[0] == a[0];
    if a[0] != '\n' {
      assert (a + b)[1..] == a[1..] + b;
      LineLengthBounded(a[1..], b);
    }
  }

  lemma BrokenLine(kind: char, s: string, rest: string)
    requires '\n' in s && (kind == '+' || kind == '-')
    ensures var r := ReadOne([kind] + s + CRLF + rest);
            r.Got? ==> r.value != Simple(s) && r.value != Error(s)
  {
    var u := [kind] + s;
    var all := [kind] + s + CRLF + rest;
    assert all == u + (CRLF + rest) && '\n' in u;
    LineLengthBounded(u, CRLF + rest);
  }

  /** A reply with a line feed in a status or error line does not survive. */
  lemma {:induction false} UnsafeReplyLost(r: Reply, rest: string)
    requires Sized(r) && !LineSafe(r)
    ensures var g := ReadOne(Encode(r) + rest); g.Got? ==> g.value != r
    decreases r, 1
  {
    match r
    case Simple(s) => BrokenLine('+', s, rest);
    case Error(s) => BrokenLine('-', s, rest);
    case Array(arr) =>
      assert Encode(r) + rest == "*" + Itoa(|arr|) + CRLF + (EncodeAll(arr) + rest);
      ArrayReads(|arr|, EncodeAll(arr) + rest);
      UnsafeRepliesLost(arr, rest);
    case _ =>
  }

  lemma {:induction false} UnsafeRepliesLost(rs: seq<Reply>, rest: string)
    requires (forall i :: 0 <= i < |rs| ==> Sized(rs[i])) && !(forall i :: 0 <= i < |rs| ==> LineSafe(rs[i]))
    ensures var g := ReadMany(EncodeAll(rs) + rest, |rs|); g.Got? ==> g.value != rs
    decreases rs, 0
  {
    var tail := EncodeAll(rs[1..]) + rest;
    assert EncodeAll(rs) + rest == Encode(rs[0]) + tail;
    ReadManyStep(EncodeAll(rs) + rest, |rs|);
    if LineSafe(rs[0]) {
      ReplyRoundTrip(rs[0], tail);
      UnsafeRepliesLost(rs[1..], rest);
      var g := ReadMany(tail, |rs| - 1);
      if g.Got? { assert ([rs[0]] + g.value)[1..] == g.value; }
    } else {
      UnsafeReplyLost(rs[0], tail);
      var g := ReadMany(EncodeAll(rs) + rest, |rs|);
      if g.Got? { assert g.value[0] == ReadOne(EncodeAll(rs) + rest).value; }
    }
  }

  /** The round trip holds for a reply if and only if its status and error lines are one line. */
  lemma RoundTripIff(r: Reply, rest: string)
    requires Sized(r)
    ensures ReadOne(Encode(r) + rest) == Got(r, rest) <==> LineSafe(r)
  {
    if LineSafe(r) {
      ReplyRoundTrip(r, rest);
    } else {
      UnsafeReplyLost(r, rest);
    }
  }
}
