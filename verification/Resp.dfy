/** The RESP wire format (internal/store/redis/client.go): the command writer, the recursive reply
    reader, and their round trips. Characters stand for bytes. */
module Resp {
  import opened Prelude
  import opened Decimal

  /** reply: a decoded RESP value. */
  datatype Reply =
    | Simple(str: string)
    | Error(str: string)
    | Integer(num: Int64)
    | Bulk(str: string)
    | NilBulk
    | Array(arr: seq<Reply>)
    | NilArray

  const CRLF := "\r\n"

  // ---------------------------------------------------------------------- writing

  function BulkText(a: string): string {
    "$" + Itoa(|a|) + CRLF + a + CRLF
  }

  function BulkTexts(args: seq<string>): string {
    if args == [] then "" else BulkText(args[0]) + BulkTexts(args[1..])
  }

  /** What writeCommand writes. */
  function CommandText(args: seq<string>): string {
    "*" + Itoa(|args|) + CRLF + BulkTexts(args)
  }

  /** How a server writes a reply. */
  function Encode(r: Reply): string
    decreases r, 1
  {
    match r
    case Simple(s) => "+" + s + CRLF
    case Error(s) => "-" + s + CRLF
    case Integer(n) => ":" + Itoa(n) + CRLF
    case Bulk(s) => BulkText(s)
    case NilBulk => "$-1" + CRLF
    case Array(arr) => "*" + Itoa(|arr|) + CRLF + EncodeAll(arr)
    case NilArray => "*-1" + CRLF
  }

  function EncodeAll(rs: seq<Reply>): string
    decreases rs, 0
  {
    if rs == [] then "" else Encode(rs[0]) + EncodeAll(rs[1..])
  }

  // ---------------------------------------------------------------------- reading

  datatype Read<T> = Got(value: T, rest: string) | Broken

  function DropCR(s: string): string {
    if s != "" && s[|s|-1] == '\r' then s[..|s|-1] else s
  }

  /** Length of the prefix before the first line feed. */
  function LineLength(s: string): (n: nat)
    ensures n <= |s| && '\n' !in s[..n]
    ensures n < |s| ==> s[n] == '\n'
  {
    if s == "" || s[0] == '\n' then 0
    else
      var m := LineLength(s[1..]);
      assert s[..m+1] == [s[0]] + s[1..][..m];
      m + 1
  }

  /** readLine: up to a line feed, without it and one carriage return before it. */
  function Line(s: string): (r: Read<string>)
    ensures r.Got? ==> |r.rest| < |s|
  {
    var n := LineLength(s);
    if n == |s| then Broken else Got(DropCR(s[..n]), s[n+1..])
  }

  /** What readReply returns for the unread bytes s. */
  function ReadOne(s: string): (r: Read<Reply>)
    ensures r.Got? ==> |r.rest| < |s|
    decreases |s|, 0
  {
    match Line(s)
    case Broken => Broken
    case Got(line, rest) =>
      if line == "" then Broken
      else
        var body := line[1..];
        if line[0] == '+' then Got(Simple(body), rest)
        else if line[0] == '-' then Got(Error(body), rest)
        else if line[0] == ':' then
          (match ParseInt(body) case None => Broken case Some(n) => Got(Integer(n), rest))
        else if line[0] == '$' then
          (match ParseInt(body)
           case None => Broken
           case Some(n) =>
             if n < 0 then Got(NilBulk, rest)
             else if |rest| < n + 2 then Broken
             else Got(Bulk(rest[..n]), rest[n+2..]))
        else if line[0] == '*' then
          (match ParseInt(body)
           case None => Broken
           case Some(n) =>
             if n < 0 then Got(NilArray, rest)
             else
               match ReadMany(rest, n)
               case Broken => Broken
               case Got(arr, rest') => Got(Array(arr), rest'))
        else Broken
  }

  function ReadMany(s: string, n: nat): (r: Read<seq<Reply>>)
    ensures r.Got? ==> |r.rest| <= |s| && |r.value| == n
    decreases |s|, 1, n
  {
    if n == 0 then Got([], s)
    else
      match ReadOne(s)
      case Broken => Broken
      case Got(r, rest) =>
        match ReadMany(rest, n - 1)
        case Broken => Broken
        case Got(rs, rest') => Got([r] + rs, rest')
  }

  // ------------------------------------------------------------------ the connection

  /** conn: the buffered writer's unflushed bytes, the buffered reader's unread ones, and all the
      bytes the peer has been sent. */
  class Conn {
    var unsent: string
    var unread: string
    var sent: string

    constructor ()
      ensures unsent == "" && unread == "" && sent == ""
    {
      unsent, unread, sent := "", "", "";
    }

    method WriteBulk(a: string)
      modifies this`unsent
      ensures unsent == old(unsent) + BulkText(a)
    {
      unsent := unsent + ("$" + Itoa(|a|) + CRLF);
      unsent := unsent + a;
      unsent := unsent + CRLF;
    }

    method WriteCommand(args: seq<string>)
      modifies this`unsent
      ensures unsent == old(unsent) + CommandText(args)
    {
      ghost var start := unsent;
      unsent := unsent + ("*" + Itoa(|args|) + CRLF);
      ghost var head := unsent;
      assert args[..0] == [];
      for i := 0 to |args|
        invariant unsent == head + BulkTexts(args[..i])
      {
        WriteBulk(args[i]);
        BulkTextsStep(args, i);
        Regroup(head, BulkTexts(args[..i]), BulkText(args[i]));
      }
      assert args[..|args|] == args;
      Regroup(start, "*" + Itoa(|args|) + CRLF, BulkTexts(args));
    }

    /** Scans to the line feed. There is none exactly when reading fails; otherwise the line, its
        ending and the rest make up what was unread. */
    method ReadLine() returns (line: Option<string>)
      modifies this`unread
      ensures match Line(old(unread))
              case Broken => line.None?
              case Got(l, rest) => line == Some(l) && unread == rest
      ensures line.None? <==> '\n' !in old(unread)
      ensures line.Some? ==> '\n' !in line.value
      ensures line.Some? ==> old(unread) == line.value + "\n" + unread || old(unread) == line.value + CRLF + unread
    {
      var n := 0;
      while n < |unread| && unread[n] != '\n'
        invariant n <= |unread| && '\n' !in unread[..n]
      {
        assert unread[..n + 1] == unread[..n] + [unread[n]];
        n := n + 1;
      }
      if n == |unread| {
        assert unread[..n] == unread;
        return None;
      }
      var text := unread[..n];
      assert unread == text + "\n" + unread[n + 1..] && unread[n] in unread;
      unread := unread[n + 1..];
      if |text| > 0 && text[|text| - 1] == '\r' {
        assert text == text[..|text| - 1] + "\r";
        text := text[..|text| - 1];
      }
      return Some(text);
    }

    /** Reads one reply, nested replies included, and consumes exactly its bytes. */
    method ReadReply() returns (reply: Option<Reply>)
      modifies this`unread
      ensures match ReadOne(old(unread))
              case Broken => reply.None?
              case Got(r, rest) => reply == Some(r) && unread == rest
      decreases |unread|, 0
    {
      var line := ReadLine();
      if line.None? || line.value == "" {
        return None;
      }
      var kind, body := line.value[0], line.value[1..];
      match kind
      case '+' => return Some(Simple(body));
      case '-' => return Some(Error(body));
      case ':' =>
        var n := ParseInt(body);
        if n.None? { return None; }
        return Some(Integer(n.value));
      case '$' =>
        var n := ParseInt(body);
        if n.None? { return None; }
        if n.value < 0 { return Some(NilBulk); }
        var size: int := n.value;
        if |unread| < size + 2 { return None; }
        var str := unread[..size];
        unread := unread[size + 2..];
        return Some(Bulk(str));
      case '*' =>
        var n := ParseInt(body);
        if n.None? { return None; }
        if n.value < 0 { return Some(NilArray); }
        var arr := ReadArray(n.value);
        if arr.None? { return None; }
        return Some(Array(arr.value));
      case _ => return None;
    }

    /** The loop over the elements of an array reply. */
    method ReadArray(n: nat) returns (arr: Option<seq<Reply>>)
      modifies this`unread
      ensures match ReadMany(old(unread), n)
              case Broken => arr.None?
              case Got(rs, rest) => arr == Some(rs) && unread == rest
      decreases |unread|, 2
    {
      ghost var whole := ReadMany(unread, n);
      var got: seq<Reply>, i := [], 0;
      RebuiltNone(whole);
      while i < n
        invariant i <= n && |unread| <= |old(unread)|
        invariant Rebuilt(got, ReadMany(unread, n - i)) == whole
      {
        ghost var before := ReadMany(unread, n - i);
        var e := ReadElement(n - i);
        if e.None? {
          return None;
        }
        i := i + 1;
        RebuiltStep(got, e.value, before, ReadMany(unread, n - i), whole);
        got := got + [e.value];
      }
      RebuiltAll(got, unread, whole);
      return Some(got);
    }

    method ReadElement(ghost n: nat) returns (e: Option<Reply>)
      requires n > 0
      modifies this`unread
      ensures e.None? ==> ReadMany(old(unread), n).Broken?
      ensures e.Some? ==> |unread| < |old(unread)| && ReadMany(old(unread), n) == Rebuilt([e.value], ReadMany(unread, n - 1))
      decreases |unread|, 1
    {
      ReadManyStep(unread, n);
      e := ReadReply();
    }
  }

  lemma Regroup(a: string, b: string, c: string)
    ensures a + b + c == a + (b + c)
  {
  }

  lemma {:induction false} BulkTextsStep(args: seq<string>, i: nat)
    requires i < |args|
    ensures BulkTexts(args[..i+1]) == BulkTexts(args[..i]) + BulkText(args[i])
  {
    if i == 0 {
      assert args[..1][1..] == [];
    } else {
      assert args[..i+1][1..] == args[1..][..i] && args[..i][1..] == args[1..][..i-1];
      BulkTextsStep(args[1..], i - 1);
      assert BulkText(args[0]) + (BulkTexts(args[1..][..i-1]) + BulkText(args[i]))
          == BulkText(args[0]) + BulkTexts(args[1..][..i-1]) + BulkText(args[i]);
    }
  }

  lemma ReadManyStep(s: string, n: nat)
    requires n > 0
    ensures ReadMany(s, n) == match ReadOne(s)
                              case Broken => Broken
                              case Got(r, rest) => Rebuilt([r], ReadMany(rest, n - 1))
  {
  }

  lemma RebuiltNone(more: Read<seq<Reply>>)
    ensures Rebuilt([], more) == more
  {
    if more.Got? { assert [] + more.value == more.value; }
  }

  ghost function Rebuilt(got: seq<Reply>, more: Read<seq<Reply>>): Read<seq<Reply>> {
    match more
    case Broken => Broken
    case Got(rs, rest) => Got(got + rs, rest)
  }

  lemma RebuiltAll(got: seq<Reply>, rest: string, whole: Read<seq<Reply>>)
    requires Rebuilt(got, ReadMany(rest, 0)) == whole
    ensures whole == Got(got, rest)
  {
    assert got + [] == got;
  }

  lemma RebuiltStep(got: seq<Reply>, e: Reply, before: Read<seq<Reply>>, after: Read<seq<Reply>>, whole: Read<seq<Reply>>)
    requires Rebuilt(got, before) == whole && before == Rebuilt([e], after)
    ensures Rebuilt(got + [e], after) == whole
  {
    if after.Got? { assert got + ([e] + after.value) == got + [e] + after.value; }
  }

  /** reply.strings */
  function StringsOf(r: Reply): seq<string> {
    match r
    case Array(arr) => seq(|arr|, i requires 0 <= i < |arr| => Str(arr[i]))
    case NilArray => []
    case Bulk(s) => [s]
    case Simple(s) => [s]
    case _ => []
  }

  /** The str field of a reply; nils, integers and arrays leave it empty. */
  function Str(r: Reply): string {
    match r
    case Simple(s) => s
    case Error(s) => s
    case Bulk(s) => s
    case _ => ""
  }
}
