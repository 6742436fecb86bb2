/** The two JSON path walkers: lookupPath (internal/pipeline/resolve.go), which fills template
    references, and walkPath with its private atoi (internal/pipeline/condition.go), which
    feeds router conditions. */
module Paths {
  import opened Prelude
  import opened Text
  import opened Decimal
  import opened Json

  datatype PathError =
    | NotJson
    | KeyNotFound(key: string)
    | BadIndex(seg: string)
    | CannotDescend

  // ---------------------------------------------------------------- lookupPath

  /** One segment of lookupPath; array indices are read by strconv.Atoi. */
  function Descend(node: Json, seg: string): Result<Json, PathError> {
    match node
    case Object(fields) => if seg in fields then Ok(fields[seg]) else Err(KeyNotFound(seg))
    case Array(items) =>
      (match ParseInt(seg)
       case Some(k) => if 0 <= k < |items| then Ok(items[k]) else Err(BadIndex(seg))
       case None => Err(BadIndex(seg)))
    case _ => Err(CannotDescend)
  }

  function LookupNode(doc: Json, path: seq<string>): Result<Json, PathError> {
    if path == [] then Ok(doc)
    else
      match Descend(doc, path[0])
      case Err(e) => Err(e)
      case Ok(child) => LookupNode(child, path[1..])
  }

  /** What lookupPath returns. */
  function Lookup(raw: string, path: seq<string>, codec: Codec): Result<string, PathError> {
    match codec.decode(TrimSpace(raw))
    case None => Err(NotJson)
    case Some(doc) =>
      (match LookupNode(doc, path)
       case Err(e) => Err(e)
       case Ok(node) => Ok(Stringify(node, codec)))
  }

  method LookupPath(raw: string, path: seq<string>, codec: Codec) returns (r: Result<string, PathError>)
    ensures r == Lookup(raw, path, codec)
  {
    var doc := codec.decode(TrimSpace(raw));
    if doc.None? {
      return Err(NotJson);
    }
    var cur := doc.value;
    for i := 0 to |path|
      invariant LookupNode(doc.value, path) == LookupNode(cur, path[i..])
    {
      var next := Descend(cur, path[i]);
      if next.Err? {
        return Err(next.error);
      }
      cur := next.value;
    }
    return Ok(Stringify(cur, codec));
  }

  // ------------------------------------------------------------------ walkPath

  /** What atoi returns: the digits' value as a 64-bit int keeps it, with no range check. */
  function LooseIndex(s: string): Option<Int64> {
    if s == [] || !AllDigits(s) then None else Some(Wrap64(Value(s)))
  }

  lemma WrapStep(x: int, d: int)
    ensures Wrap64(Wrap64(x) * 10 + d) == Wrap64(x * 10 + d)
  {
    var q := (x - Wrap64(x)) / TWO_64;
    assert x == Wrap64(x) + q * TWO_64;
    var y := Wrap64(x) * 10 + d;
    assert x * 10 + d == y + (q * 10) * TWO_64;
    ModShift(y, q * 10);
  }

  lemma ModShift(y: int, k: int)
    ensures (y + k * TWO_64) % TWO_64 == y % TWO_64
  {
  }

  /** The overflowing accumulator of atoi computes the value modulo 2^64. */
  method Atoi(s: string) returns (r: Option<Int64>)
    ensures r == LooseIndex(s)
  {
    var n: Int64 := 0;
    if s == [] {
      return None;
    }
    for i := 0 to |s|
      invariant AllDigits(s[..i]) && n == Wrap64(Value(s[..i]))
    {
      if !IsDigit(s[i]) {
        return None;
      }
      assert s[..i+1] == s[..i] + [s[i]] && s[..i+1][..i] == s[..i];
      WrapStep(Value(s[..i]), DigitOf(s[i]));
      n := Wrap64(n * 10 + DigitOf(s[i]));
    }
    assert s[..|s|] == s;
    return Some(n);
  }

  function WalkSegment(node: Json, seg: string): Option<Json> {
    match node
    case Object(fields) => if seg in fields then Some(fields[seg]) else None
    case Array(items) =>
      (match LooseIndex(seg)
       case Some(k) => if 0 <= k < |items| then Some(items[k]) else None
       case None => None)
    case _ => None
  }

  function WalkSegments(doc: Json, segs: seq<string>): Option<Json> {
    if segs == [] then Some(doc)
    else
      match WalkSegment(doc, segs[0])
      case None => None
      case Some(child) => WalkSegments(child, segs[1..])
  }

  /** What walkPath returns: the node, or None for found == false. */
  function Walk(doc: Json, path: string): Option<Json> {
    if path == "" then Some(doc) else WalkSegments(doc, Split(path))
  }

  method WalkPath(doc: Json, path: string) returns (value: Json, found: bool)
    ensures found == Walk(doc, path).Some?
    ensures found ==> value == Walk(doc, path).value
  {
    if path == "" {
      return doc, true;
    }
    var cur := doc;
    var segs := Split(path);
    for i := 0 to |segs|
      invariant WalkSegments(doc, segs) == WalkSegments(cur, segs[i..])
    {
      match cur
      case Object(fields) =>
        if segs[i] !in fields {
          return Null, false;
        }
        cur := fields[segs[i]];
      case Array(items) =>
        var idx := Atoi(segs[i]);
        if idx.None? || idx.value < 0 || idx.value >= |items| {
          return Null, false;
        }
        cur := items[idx.value];
      case _ =>
        return Null, false;
    }
    return cur, true;
  }

  // ------------------------------------------------------------ what a path leads to

  /** The two walkers differ in how they read an array index. */
  datatype Reader = Strict | Loose

  function Index(seg: string, reader: Reader): Option<Int64> {
    if reader.Strict? then ParseInt(seg) else LooseIndex(seg)
  }

  /** The segment names the child: as a key of an object, or as an index of an array. */
  ghost predicate Child(doc: Json, seg: string, child: Json, reader: Reader) {
    || (doc.Object? && seg in doc.fields && child == doc.fields[seg])
    || (doc.Array? && exists k :: 0 <= k < |doc.items| && Index(seg, reader) == Some(k) && child == doc.items[k])
  }

  ghost predicate Leads(doc: Json, path: seq<string>, node: Json, reader: Reader)
    decreases |path|
  {
    if path == [] then node == doc
    else exists child :: Child(doc, path[0], child, reader) && Leads(child, path[1..], node, reader)
  }

  /** The path stops at a node that has no such child; the error says what kind of node that is. */
  ghost predicate Stuck(doc: Json, path: seq<string>, e: PathError)
    decreases |path|
  {
    path != [] &&
    (|| ((forall child :: !Child(doc, path[0], child, Strict))
         && e == (if doc.Object? then KeyNotFound(path[0]) else if doc.Array? then BadIndex(path[0]) else CannotDescend))
     || exists child :: Child(doc, path[0], child, Strict) && Stuck(child, path[1..], e))
  }

  lemma DescendMeans(doc: Json, seg: string)
    ensures forall child :: Descend(doc, seg) == Ok(child) <==> Child(doc, seg, child, Strict)
  {
  }

  lemma WalkMeans(doc: Json, seg: string)
    ensures forall child :: WalkSegment(doc, seg) == Some(child) <==> Child(doc, seg, child, Loose)
  {
  }

  lemma {:induction false} LookupNodeMeans(doc: Json, path: seq<string>)
    ensures forall node :: LookupNode(doc, path) == Ok(node) <==> Leads(doc, path, node, Strict)
    ensures forall e :: LookupNode(doc, path) == Err(e) <==> Stuck(doc, path, e)
    decreases |path|
  {
    if path != [] {
      DescendMeans(doc, path[0]);
      var next := Descend(doc, path[0]);
      if next.Ok? {
        assert Child(doc, path[0], next.value, Strict);
        LookupNodeMeans(next.value, path[1..]);
      }
    }
  }

  lemma {:induction false} WalkSegmentsMeans(doc: Json, segs: seq<string>)
    ensures forall node :: WalkSegments(doc, segs) == Some(node) <==> Leads(doc, segs, node, Loose)
    decreases |segs|
  {
    if segs != [] {
      WalkMeans(doc, segs[0]);
      var next := WalkSegment(doc, segs[0]);
      if next.Some? {
        assert Child(doc, segs[0], next.value, Loose);
        WalkSegmentsMeans(next.value, segs[1..]);
      }
    }
  }

  /** A dotted field finds a node; the empty field is the document itself. */
  ghost predicate Finds(doc: Json, field: string, node: Json) {
    if field == "" then node == doc else Leads(doc, Split(field), node, Loose)
  }

  /** walkPath finds exactly what the field leads to. */
  lemma WalkFinds(doc: Json, field: string)
    ensures forall node :: Walk(doc, field) == Some(node) <==> Finds(doc, field, node)
  {
    if field != "" { WalkSegmentsMeans(doc, Split(field)); }
  }

  /** The document decodes, and the path leads to a node with this text. */
  ghost predicate PathText(raw: string, path: seq<string>, text: string, codec: Codec) {
    var doc := codec.decode(TrimSpace(raw));
    doc.Some? && exists node :: Leads(doc.value, path, node, Strict) && Shows(node, text, codec)
  }

  /** The document does not decode, or the path gets stuck. */
  ghost predicate PathFault(raw: string, path: seq<string>, e: PathError, codec: Codec) {
    var doc := codec.decode(TrimSpace(raw));
    if doc.None? then e == NotJson else Stuck(doc.value, path, e)
  }

  /** lookupPath returns the text of what the path leads to, and fails exactly when it leads nowhere. */
  lemma LookupMeans(raw: string, path: seq<string>, codec: Codec)
    ensures forall text :: Lookup(raw, path, codec) == Ok(text) <==> PathText(raw, path, text, codec)
    ensures forall e :: Lookup(raw, path, codec) == Err(e) <==> PathFault(raw, path, e, codec)
  {
    var doc := codec.decode(TrimSpace(raw));
    if doc.Some? {
      LookupNodeMeans(doc.value, path);
      forall node, text ensures Stringify(node, codec) == text <==> Shows(node, text, codec) { StringifyShows(node, text, codec); }
      var found := LookupNode(doc.value, path);
      if found.Ok? { assert Leads(doc.value, path, found.value, Strict); }
    }
  }

  // ----------------------------------------------------------------- agreement

  /** A segment both walkers read as the same array index, or both reject: no explicit '+', no
      "-0", and no digit run past the int64 range whose low 64 bits look non-negative. */
  predicate SafeSegment(seg: string) {
    if seg == [] then true
    else if seg[0] == '+' then
      !(seg[1..] != [] && AllDigits(seg[1..]) && Value(seg[1..]) <= MAX_INT64)
    else if seg[0] == '-' then
      !(seg[1..] != [] && AllDigits(seg[1..]) && Value(seg[1..]) == 0)
    else
      AllDigits(seg) && Value(seg) > MAX_INT64 ==> Value(seg) % TWO_64 > MAX_INT64
  }

  function NonNegative(n: Option<Int64>): Option<Int64> {
    if n.Some? && n.value < 0 then None else n
  }

  lemma SafeSegmentIff(seg: string)
    ensures SafeSegment(seg) <==> NonNegative(ParseInt(seg)) == NonNegative(LooseIndex(seg))
    ensures ParseInt(seg).Some? && LooseIndex(seg).Some? ==> ParseInt(seg) == LooseIndex(seg)
  {
    if seg != [] && (seg[0] == '+' || seg[0] == '-') {
      assert !IsDigit(seg[0]);
      assert !AllDigits(seg);
    }
  }

  predicate SameAnswer(a: Result<Json, PathError>, b: Option<Json>) {
    if a.Ok? then b == Some(a.value) else b.None?
  }

  lemma {:induction false} SafeSegmentsAgree(doc: Json, path: seq<string>)
    requires forall seg <- path :: SafeSegment(seg)
    ensures SameAnswer(LookupNode(doc, path), WalkSegments(doc, path))
  {
    if path != [] {
      SafeSegmentIff(path[0]);
      var next := Descend(doc, path[0]);
      if next.Ok? {
        SafeSegmentsAgree(next.value, path[1..]);
      }
    }
  }

  /** A document of nested objects in which the path leads to the given leaf. */
  function Nest(path: seq<string>, leaf: Json): Json {
    if path == [] then leaf else Object(map[path[0] := Nest(path[1..], leaf)])
  }

  lemma {:induction false} WalksNest(path: seq<string>, leaf: Json, rest: seq<string>)
    ensures LookupNode(Nest(path, leaf), path + rest) == LookupNode(leaf, rest)
    ensures WalkSegments(Nest(path, leaf), path + rest) == WalkSegments(leaf, rest)
  {
    if path == [] {
      assert path + rest == rest;
    } else {
      assert (path + rest)[1..] == path[1..] + rest;
      WalksNest(path[1..], leaf, rest);
    }
  }

  lemma UnsafeSegmentDisagrees(path: seq<string>, k: nat) returns (doc: Json)
    requires k < |path| && !SafeSegment(path[k])
    ensures !SameAnswer(LookupNode(doc, path), WalkSegments(doc, path))
  {
    var seg := path[k];
    SafeSegmentIff(seg);
    var a, b := NonNegative(ParseInt(seg)), NonNegative(LooseIndex(seg));
    var idx := if a.Some? then a.value else b.value;
    var tail := Nest(path[k+1..], Null);
    var arr := Array(seq(idx + 1, _ => tail));
    doc := Nest(path[..k], arr);
    assert path == path[..k] + path[k..];
    WalksNest(path[..k], arr, path[k..]);
    WalksNest(path[k+1..], Null, []);
    assert path[k..][0] == seg && path[k..][1..] == path[k+1..] == path[k+1..] + [];
  }

  lemma JoinNonEmpty(path: seq<string>)
    requires path != [] && path != [""]
    ensures Join(path) != ""
  {
  }

  /** The two walkers agree on every document exactly when every segment of the path is safe. */
  lemma WalkersAgreeIff(path: seq<string>)
    requires path != [] && path != [""] && forall seg <- path :: DotFree(seg)
    ensures (forall doc :: SameAnswer(LookupNode(doc, path), Walk(doc, Join(path))))
       <==> (forall seg <- path :: SafeSegment(seg))
  {
    SplitJoin(path);
    JoinNonEmpty(path);
    if forall seg <- path :: SafeSegment(seg) {
      forall doc ensures SameAnswer(LookupNode(doc, path), Walk(doc, Join(path))) {
        SafeSegmentsAgree(doc, path);
      }
    } else {
      var k :| 0 <= k < |path| && !SafeSegment(path[k]);
      var doc := UnsafeSegmentDisagrees(path, k);
    }
  }

  /** "-0" is a legal path segment of a template reference; only lookupPath takes it as an index. */
  lemma SignedZeroDisagrees()
    ensures LookupNode(Array([Null]), ["-0"]) == Ok(Null) && Walk(Array([Null]), "-0") == None
  {
    SplitJoin(["-0"]);
    assert "-0"[1..] == "0" && "0"[..0] == "" && Value("0") == 0;
  }

  /** The numeral of an integer past the int64 range is no index for lookupPath, while walkPath
      takes its low 64 bits as one. */
  lemma OverflowDisagrees(n: nat, items: seq<Json>)
    requires n > MAX_INT64 && 0 <= Wrap64(n) < |items|
    ensures LookupNode(Array(items), [Itoa(n)]).Err?
    ensures Walk(Array(items), Itoa(n)) == Some(items[Wrap64(n)])
  {
    var s := Itoa(n);
    ValueOfDigits(n);
    assert IsDigit(s[0]);
    var path: seq<string> := [s];
    SplitJoin(path);
    assert path[1..] == [];
    assert Split(s) == path && LooseIndex(s) == Some(Wrap64(n));
    assert WalkSegments(Array(items), path) == WalkSegments(items[Wrap64(n)], path[1..]);
  }
}
