/** The template grammar (internal/pipeline/template.go) and its resolver
    (internal/pipeline/resolve.go). */
module Template {
  import opened Prelude
  import opened Text
  import opened Json
  import Paths

  /** Ref: one parsed reference, with the full "{{ ... }}" text as written. */
  datatype Ref =
    | InputRef(name: string, raw: string)
    | OutputRef(stepId: string, path: seq<string>, raw: string)

  datatype Scope = Scope(inputs: map<string, string>, outputs: map<string, string>)

  datatype Error =
    | InvalidReference(raw: string)
    | UnbalancedBraces
    | UnresolvedInput(name: string)
    | UnresolvedOutput(stepId: string)
    | PathFailed(why: Paths.PathError)

  // ------------------------------------------------------------- brace pattern

  predicate IsBrace(c: char) {
    c == '{' || c == '}'
  }

  predicate BraceFree(s: string) {
    forall c <- s :: !IsBrace(c)
  }

  /** Length of the longest brace-free prefix. */
  function BraceFreeRun(s: string): (n: nat)
    ensures n <= |s| && BraceFree(s[..n])
    ensures n < |s| ==> IsBrace(s[n])
  {
    if s == [] || IsBrace(s[0]) then 0
    else
      var m := BraceFreeRun(s[1..]);
      assert s[..m+1] == [s[0]] + s[1..][..m];
      m + 1
  }

  /** Whether refPattern matches at the head of s: two opening braces, at least one character
      that is no brace, two closing braces. */
  predicate MatchesHead(s: string) {
    && |s| >= 2 && s[0] == '{' && s[1] == '{'
    && var n := BraceFreeRun(s[2..]);
       n > 0 && n + 3 < |s| && s[n+2] == '}' && s[n+3] == '}'
  }

  function MatchLength(s: string): (n: nat)
    requires MatchesHead(s)
    ensures 4 < n <= |s|
  {
    BraceFreeRun(s[2..]) + 4
  }

  /** A text cut at the non-overlapping leftmost matches of refPattern. */
  datatype Token = Char(c: char) | Match(raw: string)

  function HeadLength(s: string): (n: nat)
    requires s != []
    ensures 1 <= n <= |s|
  {
    if MatchesHead(s) then MatchLength(s) else 1
  }

  function HeadToken(s: string): (t: Token)
    requires s != []
    ensures t.Match? ==> |t.raw| > 4
  {
    if MatchesHead(s) then Match(s[..MatchLength(s)]) else Char(s[0])
  }

  function Tokens(s: string): seq<Token> {
    if s == [] then [] else [HeadToken(s)] + Tokens(s[HeadLength(s)..])
  }

  // ----------------------------------------------------------------- parseRefs

  predicate IsIdChar(c: char) {
    'a' <= c <= 'z' || '0' <= c <= '9' || c == '_' || c == '-'
  }

  predicate IsPathChar(c: char) {
    IsIdChar(c) || 'A' <= c <= 'Z'
  }

  /** idPattern */
  predicate IsId(s: string) {
    s != [] && forall c <- s :: IsIdChar(c)
  }

  /** pathPattern */
  predicate IsPathSegment(s: string) {
    s != [] && forall c <- s :: IsPathChar(c)
  }

  function ParseRef(inner: string, raw: string): Result<Ref, Error> {
    var parts := Split(inner);
    if |parts| == 2 && parts[0] == "inputs" then
      if IsId(parts[1]) then Ok(InputRef(parts[1], raw)) else Err(InvalidReference(raw))
    else if |parts| >= 3 && parts[0] == "steps" && parts[2] == "output" then
      if IsId(parts[1]) && forall seg <- parts[3..] :: IsPathSegment(seg)
      then Ok(OutputRef(parts[1], parts[3..], raw))
      else Err(InvalidReference(raw))
    else Err(InvalidReference(raw))
  }

  /** The reference a match stands for. */
  function RefOf(raw: string): Result<Ref, Error>
    requires |raw| >= 4
  {
    ParseRef(TrimSpace(raw[2..|raw|-2]), raw)
  }

  predicate WellCut(toks: seq<Token>) {
    forall t <- toks :: t.Match? ==> |t.raw| >= 4
  }

  /** The references of a cut text, or the first invalid one. */
  function RefsIn(toks: seq<Token>): Result<seq<Ref>, Error>
    requires WellCut(toks)
  {
    if toks == [] then Ok([])
    else if toks[0].Char? then RefsIn(toks[1..])
    else
      match RefOf(toks[0].raw)
      case Err(e) => Err(e)
      case Ok(ref) =>
        match RefsIn(toks[1..])
        case Err(e) => Err(e)
        case Ok(refs) => Ok([ref] + refs)
  }

  predicate NoStrayBrace(toks: seq<Token>) {
    forall t <- toks :: t.Char? ==> !IsBrace(t.c)
  }

  lemma {:induction false} TokensWellCut(s: string)
    ensures WellCut(Tokens(s))
  {
    if s != [] { TokensWellCut(s[HeadLength(s)..]); }
  }

  /** What ParseRefs returns. */
  function Parsed(s: string): Result<seq<Ref>, Error> {
    TokensWellCut(s);
    match RefsIn(Tokens(s))
    case Err(e) => Err(e)
    case Ok(refs) => if NoStrayBrace(Tokens(s)) then Ok(refs) else Err(UnbalancedBraces)
  }

  lemma {:induction false} RefsInAppend(a: seq<Token>, b: seq<Token>)
    requires WellCut(a) && WellCut(b) && RefsIn(a).Ok?
    ensures RefsIn(a + b) == match RefsIn(b)
                             case Err(e) => Err(e)
                             case Ok(refs) => Ok(RefsIn(a).value + refs)
  {
    if a == [] {
      assert a + b == b;
      if RefsIn(b).Ok? { assert [] + RefsIn(b).value == RefsIn(b).value; }
    } else {
      assert (a + b)[1..] == a[1..] + b;
      RefsInAppend(a[1..], b);
      if a[0].Match? && RefsIn(b).Ok? {
        var ref := RefOf(a[0].raw).value;
        assert [ref] + (RefsIn(a[1..]).value + RefsIn(b).value) == RefsIn(a).value + RefsIn(b).value;
      }
    }
  }

  method ParseRefs(s: string) returns (r: Result<seq<Ref>, Error>)
    ensures r == Parsed(s)
  {
    var toks := Tokens(s);
    TokensWellCut(s);
    var refs: seq<Ref> := [];
    for i := 0 to |toks|
      invariant RefsIn(toks[..i]) == Ok(refs)
    {
      assert toks[..i+1] == toks[..i] + [toks[i]];
      assert toks == toks[..i] + toks[i..];
      var one := [toks[i]];
      assert one[1..] == [];
      if toks[i].Match? {
        var ref := RefOf(toks[i].raw);
        if ref.Err? {
          RefsInAppend(toks[..i], toks[i..]);
          return Err(ref.error);
        }
        assert [ref.value] + [] == [ref.value] && RefsIn(one) == Ok([ref.value]);
        RefsInAppend(toks[..i], one);
        refs := refs + [ref.value];
      } else {
        RefsInAppend(toks[..i], one);
        assert refs + [] == refs;
      }
    }
    assert toks[..|toks|] == toks;
    if !NoStrayBrace(toks) {
      return Err(UnbalancedBraces);
    }
    return Ok(refs);
  }

  // ------------------------------------------------------------------- resolve

  function ResolveRef(ref: Ref, scope: Scope, codec: Codec): Result<string, Error> {
    match ref
    case InputRef(name, _) =>
      if name in scope.inputs then Ok(scope.inputs[name]) else Err(UnresolvedInput(name))
    case OutputRef(id, path, _) =>
      if id !in scope.outputs then Err(UnresolvedOutput(id))
      else if path == [] then Ok(scope.outputs[id])
      else
        match Paths.Lookup(scope.outputs[id], path, codec)
        case Ok(v) => Ok(v)
        case Err(e) => Err(PathFailed(e))
  }

  method ResolveReference(ref: Ref, scope: Scope, codec: Codec) returns (r: Result<string, Error>)
    ensures r == ResolveRef(ref, scope, codec)
  {
    match ref
    case InputRef(name, _) =>
      if name !in scope.inputs {
        return Err(UnresolvedInput(name));
      }
      return Ok(scope.inputs[name]);
    case OutputRef(id, path, _) =>
      if id !in scope.outputs {
        return Err(UnresolvedOutput(id));
      }
      if |path| == 0 {
        return Ok(scope.outputs[id]);
      }
      var found := Paths.LookupPath(scope.outputs[id], path, codec);
      if found.Err? {
        return Err(PathFailed(found.error));
      }
      return Ok(found.value);
  }

  /** The first reference that does not resolve decides the error. */
  function FirstFailure(refs: seq<Ref>, scope: Scope, codec: Codec): Option<Error> {
    if refs == [] then None
    else
      match ResolveRef(refs[0], scope, codec)
      case Err(e) => Some(e)
      case Ok(_) => FirstFailure(refs[1..], scope, codec)
  }

  /** The cut text with every match replaced by its value. */
  function Fill(toks: seq<Token>, scope: Scope, codec: Codec): string
    requires WellCut(toks)
  {
    if toks == [] then []
    else
      (match toks[0]
       case Char(c) => [c]
       case Match(raw) => ValueOf(raw, scope, codec))
      + Fill(toks[1..], scope, codec)
  }

  function ValueOf(raw: string, scope: Scope, codec: Codec): string
    requires |raw| >= 4
  {
    match RefOf(raw)
    case Err(_) => ""
    case Ok(ref) =>
      match ResolveRef(ref, scope, codec)
      case Ok(v) => v
      case Err(_) => ""
  }

  /** What Resolve returns. */
  function Resolved(s: string, scope: Scope, codec: Codec): Result<string, Error> {
    match Parsed(s)
    case Err(e) => Err(e)
    case Ok(refs) =>
      match FirstFailure(refs, scope, codec)
      case Some(e) => Err(e)
      case None =>
        TokensWellCut(s);
        Ok(Fill(Tokens(s), scope, codec))
  }

  lemma {:induction false} FillAppend(a: seq<Token>, b: seq<Token>, scope: Scope, codec: Codec)
    requires WellCut(a) && WellCut(b)
    ensures Fill(a + b, scope, codec) == Fill(a, scope, codec) + Fill(b, scope, codec)
  {
    if a == [] {
      assert a + b == b;
    } else {
      assert (a + b)[1..] == a[1..] + b;
      FillAppend(a[1..], b, scope, codec);
    }
  }

  lemma {:induction false} NoRefsFillsItself(s: string, scope: Scope, codec: Codec)
    requires WellCut(Tokens(s)) && RefsIn(Tokens(s)) == Ok([])
    ensures Fill(Tokens(s), scope, codec) == s
  {
    if s != [] {
      var n := HeadLength(s);
      TokensWellCut(s[n..]);
      assert Tokens(s)[1..] == Tokens(s[n..]);
      assert HeadToken(s).Char?;
      NoRefsFillsItself(s[n..], scope, codec);
    }
  }

  /** Every match's text is the raw text of one of the references, and raw text determines the
      reference; so the replacement table that Resolve keys by raw text is unambiguous. */
  lemma {:induction false} MatchHasRef(toks: seq<Token>, k: nat) returns (j: nat)
    requires WellCut(toks) && RefsIn(toks).Ok? && k < |toks| && toks[k].Match?
    ensures j < |RefsIn(toks).value| && RefOf(toks[k].raw) == Ok(RefsIn(toks).value[j])
    ensures RefsIn(toks).value[j].raw == toks[k].raw
  {
    if k == 0 {
      j := 0;
    } else {
      j := MatchHasRef(toks[1..], k - 1);
      if toks[0].Match? { j := j + 1; }
    }
  }

  lemma {:induction false} RefsAreOwnRaw(toks: seq<Token>, j: nat)
    requires WellCut(toks) && RefsIn(toks).Ok? && j < |RefsIn(toks).value|
    ensures var ref := RefsIn(toks).value[j]; |ref.raw| >= 4 && RefOf(ref.raw) == Ok(ref)
  {
    if toks[0].Char? {
      RefsAreOwnRaw(toks[1..], j);
    } else if j > 0 {
      RefsAreOwnRaw(toks[1..], j - 1);
    }
  }

  predicate Tabulates(replacements: map<string, string>, refs: seq<Ref>, scope: Scope, codec: Codec) {
    forall ref <- refs ::
      ref.raw in replacements && ResolveRef(ref, scope, codec) == Ok(replacements[ref.raw])
  }

  /** The first loop of Resolve: the value of every reference, keyed by its raw text. */
  method Replacements(refs: seq<Ref>, scope: Scope, codec: Codec)
    returns (r: Result<map<string, string>, Error>)
    requires forall a <- refs, b <- refs :: a.raw == b.raw ==> a == b
    ensures match FirstFailure(refs, scope, codec)
            case Some(e) => r == Err(e)
            case None => r.Ok? && Tabulates(r.value, refs, scope, codec)
  {
    var replacements: map<string, string> := map[];
    for i := 0 to |refs|
      invariant FirstFailure(refs, scope, codec) == FirstFailure(refs[i..], scope, codec)
      invariant Tabulates(replacements, refs[..i], scope, codec)
    {
      var val := ResolveReference(refs[i], scope, codec);
      if val.Err? {
        return Err(val.error);
      }
      replacements := replacements[refs[i].raw := val.value];
    }
    assert refs[..|refs|] == refs;
    return Ok(replacements);
  }

  /** The second loop of Resolve: literals copied, matches looked up in the table. */
  method Substitute(s: string, replacements: map<string, string>, scope: Scope, codec: Codec)
    returns (b: string)
    requires Parsed(s).Ok? && Tabulates(replacements, Parsed(s).value, scope, codec)
    ensures WellCut(Tokens(s)) && b == Fill(Tokens(s), scope, codec)
  {
    var toks := Tokens(s);
    TokensWellCut(s);
    b := "";
    for i := 0 to |toks|
      invariant b == Fill(toks[..i], scope, codec)
    {
      var one := [toks[i]];
      assert toks[..i+1] == toks[..i] + one && one[1..] == [];
      FillAppend(toks[..i], one, scope, codec);
      if toks[i].Char? {
        b := b + [toks[i].c];
      } else {
        ghost var j := MatchHasRef(toks, i);
        b := b + replacements[toks[i].raw];
      }
    }
    assert toks[..|toks|] == toks;
  }

  lemma RawIsKey(s: string)
    requires Parsed(s).Ok?
    ensures var refs := Parsed(s).value; forall a <- refs, b <- refs :: a.raw == b.raw ==> a == b
  {
    TokensWellCut(s);
    var refs := Parsed(s).value;
    forall a <- refs, b <- refs | a.raw == b.raw ensures a == b {
      var i :| 0 <= i < |refs| && refs[i] == a;
      var j :| 0 <= j < |refs| && refs[j] == b;
      RefsAreOwnRaw(Tokens(s), i);
      RefsAreOwnRaw(Tokens(s), j);
    }
  }

  method Resolve(s: string, scope: Scope, codec: Codec) returns (r: Result<string, Error>)
    ensures r == Resolved(s, scope, codec)
  {
    var parsed := ParseRefs(s);
    if parsed.Err? {
      return Err(parsed.error);
    }
    if |parsed.value| == 0 {
      TokensWellCut(s);
      NoRefsFillsItself(s, scope, codec);
      return Ok(s);
    }
    RawIsKey(s);
    var replacements := Replacements(parsed.value, scope, codec);
    if replacements.Err? {
      return Err(replacements.error);
    }
    var b := Substitute(s, replacements.value, scope, codec);
    return Ok(b);
  }
}
