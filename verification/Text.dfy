/** The string helpers of the Go standard library that the pipeline package relies on. */
module Text {

  /** unicode.IsSpace */
  predicate IsSpace(c: char) {
    || '\t' <= c <= '\r'
    || c == ' '
    || c as int in {0x85, 0xA0, 0x1680, 0x2028, 0x2029, 0x202F, 0x205F, 0x3000}
    || 0x2000 <= c as int <= 0x200A
  }

  predicate Blank(s: string) {
    forall c <- s :: IsSpace(c)
  }

  function TrimLeft(s: string): string {
    if s != [] && IsSpace(s[0]) then TrimLeft(s[1..]) else s
  }

  function TrimRight(s: string): string {
    if s != [] && IsSpace(s[|s|-1]) then TrimRight(s[..|s|-1]) else s
  }

  /** strings.TrimSpace */
  function TrimSpace(s: string): string {
    TrimRight(TrimLeft(s))
  }

  /** A text that TrimSpace leaves alone. */
  predicate Trimmed(s: string) {
    s != [] ==> !IsSpace(s[0]) && !IsSpace(s[|s|-1])
  }

  lemma {:induction false} TrimLeftDropsBlank(a: string, s: string)
    requires Blank(a) && (s != [] ==> !IsSpace(s[0]))
    ensures TrimLeft(a + s) == s
  {
    if a == [] {
      assert a + s == s;
    } else {
      assert (a + s)[1..] == a[1..] + s;
      TrimLeftDropsBlank(a[1..], s);
    }
  }

  lemma {:induction false} TrimRightDropsBlank(s: string, b: string)
    requires Blank(b) && (s != [] ==> !IsSpace(s[|s|-1]))
    ensures TrimRight(s + b) == s
  {
    if b == [] {
      assert s + b == s;
    } else {
      assert (s + b)[..|s + b| - 1] == s + b[..|b|-1];
      TrimRightDropsBlank(s, b[..|b|-1]);
    }
  }

  lemma {:induction false} TrimLeftOfBlank(a: string)
    requires Blank(a)
    ensures TrimLeft(a) == []
  {
    if a != [] { TrimLeftOfBlank(a[1..]); }
  }

  /** TrimSpace removes exactly the surrounding white space. */
  lemma TrimSpaceDropsBlank(a: string, s: string, b: string)
    requires Blank(a) && Blank(b) && Trimmed(s)
    ensures TrimSpace(a + s + b) == s
  {
    if s == [] {
      assert a + s + b == a + b;
      TrimLeftOfBlank(a + b);
    } else {
      assert a + s + b == a + (s + b);
      TrimLeftDropsBlank(a, s + b);
      TrimRightDropsBlank(s, b);
    }
  }

  lemma {:induction false} TrimLeftSplits(s: string) returns (a: string)
    ensures Blank(a) && s == a + TrimLeft(s)
    ensures TrimLeft(s) != [] ==> !IsSpace(TrimLeft(s)[0])
  {
    if s != [] && IsSpace(s[0]) {
      var a' := TrimLeftSplits(s[1..]);
      a := [s[0]] + a';
      assert s == [s[0]] + s[1..];
    } else {
      a := [];
    }
  }

  lemma {:induction false} TrimRightSplits(s: string) returns (b: string)
    ensures Blank(b) && s == TrimRight(s) + b
    ensures TrimRight(s) != [] ==> !IsSpace(TrimRight(s)[|TrimRight(s)|-1])
  {
    if s != [] && IsSpace(s[|s|-1]) {
      var b' := TrimRightSplits(s[..|s|-1]);
      b := b' + [s[|s|-1]];
      assert s == s[..|s|-1] + [s[|s|-1]];
    } else {
      b := [];
    }
  }

  /** Every text is its trimmed core between two runs of white space. */
  lemma TrimSpaceSplits(s: string) returns (a: string, b: string)
    ensures Blank(a) && Blank(b) && Trimmed(TrimSpace(s)) && s == a + TrimSpace(s) + b
  {
    a := TrimLeftSplits(s);
    b := TrimRightSplits(TrimLeft(s));
    if TrimSpace(s) != [] {
      assert TrimSpace(s)[0] == TrimLeft(s)[0];
    }
  }

  lemma TrimSpaceEmpty(s: string)
    ensures TrimSpace(s) == "" <==> Blank(s)
  {
    var a, b := TrimSpaceSplits(s);
    if Blank(s) {
      TrimSpaceDropsBlank(s, "", "");
      assert s + "" + "" == s;
    }
  }

  /** strings.Split(s, ".") */
  function Split(s: string): (parts: seq<string>)
    ensures |parts| >= 1
  {
    if s == [] then [[]]
    else if s[0] == '.' then [[]] + Split(s[1..])
    else
      var rest := Split(s[1..]);
      [[s[0]] + rest[0]] + rest[1..]
  }

  /** strings.Join(parts, ".") */
  function Join(parts: seq<string>): string {
    if parts == [] then []
    else if |parts| == 1 then parts[0]
    else parts[0] + "." + Join(parts[1..])
  }

  predicate DotFree(s: string) {
    '.' !in s
  }

  lemma {:induction false} SplitPrefix(a: string, s: string)
    requires DotFree(a)
    ensures var r := Split(s); Split(a + s) == [a + r[0]] + r[1..]
  {
    if a == [] {
      assert a + s == s && a + Split(s)[0] == Split(s)[0];
    } else {
      assert (a + s)[1..] == a[1..] + s;
      SplitPrefix(a[1..], s);
      assert a + Split(s)[0] == [a[0]] + (a[1..] + Split(s)[0]);
      assert Split(a[1..] + s)[1..] == Split(s)[1..];
    }
  }

  /** Splitting a joined list of dot-free parts gives the parts back. */
  lemma {:induction false} SplitJoin(parts: seq<string>)
    requires parts != [] && forall p <- parts :: DotFree(p)
    ensures Split(Join(parts)) == parts
  {
    if |parts| == 1 {
      SplitPrefix(parts[0], []);
      assert parts[0] + [] == parts[0];
    } else {
      var rest := "." + Join(parts[1..]);
      SplitJoin(parts[1..]);
      assert rest[1..] == Join(parts[1..]);
      SplitPrefix(parts[0], rest);
      assert Join(parts) == parts[0] + rest;
      assert Split(rest) == [[]] + parts[1..] && parts[0] + [] == parts[0];
    }
  }

  /** Joining the parts of a split gives the text back, and no part holds a dot. */
  lemma {:induction false} JoinSplit(s: string)
    ensures Join(Split(s)) == s && forall p <- Split(s) :: DotFree(p)
  {
    if s != [] {
      JoinSplit(s[1..]);
      var rest := Split(s[1..]);
      if s[0] == '.' {
        assert Split(s)[1..] == rest;
      } else {
        assert Split(s)[1..] == rest[1..] && DotFree(rest[0]);
        assert DotFree([s[0]] + rest[0]);
      }
    }
  }
}
