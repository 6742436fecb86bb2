/** What the template functions promise: ParseRefs accepts exactly the texts built from
    brace-free literals and well-formed references, and Resolve is one-pass substitution. */
module TemplateLaws {
  import opened Prelude
  import opened Text
  import opened Json
  import opened Template
  import Paths

  /** A template as its author thinks of it: literals, and references with optional padding. */
  datatype Part =
    | Literal(text: string)
    | InputSlot(lead: string, name: string, trail: string)
    | OutputSlot(lead: string, stepId: string, path: seq<string>, trail: string)

  ghost predicate WellFormed(p: Part) {
    match p
    case Literal(t) => BraceFree(t)
    case InputSlot(lead, name, trail) => Blank(lead) && Blank(trail) && IsId(name)
    case OutputSlot(lead, id, path, trail) =>
      Blank(lead) && Blank(trail) && IsId(id) && forall seg <- path :: IsPathSegment(seg)
  }

  ghost predicate AllWellFormed(parts: seq<Part>) {
    forall p <- parts :: WellFormed(p)
  }

  ghost function Names(p: Part): seq<string>
    requires !p.Literal?
  {
    if p.InputSlot? then ["inputs", p.name] else ["steps", p.stepId, "output"] + p.path
  }

  ghost function PartText(p: Part): string {
    if p.Literal? then p.text else "{{" + (p.lead + Join(Names(p)) + p.trail) + "}}"
  }

  ghost function Render(parts: seq<Part>): string {
    if parts == [] then [] else PartText(parts[0]) + Render(parts[1..])
  }

  ghost function PartRef(p: Part): Ref
    requires !p.Literal?
  {
    if p.InputSlot? then InputRef(p.name, PartText(p)) else OutputRef(p.stepId, p.path, PartText(p))
  }

  ghost function PartRefs(parts: seq<Part>): seq<Ref> {
    if parts == [] then []
    else (if parts[0].Literal? then [] else [PartRef(parts[0])]) + PartRefs(parts[1..])
  }

  /** What a slot stands for: an input of that name, or a step's output; with a path, the text of the
      node the path leads to in that output read as JSON. */
  ghost function SlotValue(p: Part, scope: Scope, codec: Codec): Result<string, Error>
    requires !p.Literal?
  {
    match p
    case InputSlot(_, name, _) =>
      if name in scope.inputs then Ok(scope.inputs[name]) else Err(UnresolvedInput(name))
    case OutputSlot(_, id, path, _) =>
      if id !in scope.outputs then Err(UnresolvedOutput(id))
      else if path == [] then Ok(scope.outputs[id])
      else if exists text :: Paths.PathText(scope.outputs[id], path, text, codec) then
        var text :| Paths.PathText(scope.outputs[id], path, text, codec);
        Ok(text)
      else
        TextOrFault(scope.outputs[id], path, codec);
        var e :| Paths.PathFault(scope.outputs[id], path, e, codec);
        Err(PathFailed(e))
  }

  lemma TextOrFault(raw: string, path: seq<string>, codec: Codec)
    ensures (exists text :: Paths.PathText(raw, path, text, codec)) || exists e :: Paths.PathFault(raw, path, e, codec)
  {
    Paths.LookupMeans(raw, path, codec);
    var found := Paths.Lookup(raw, path, codec);
    assert found.Ok? ==> Paths.PathText(raw, path, found.value, codec);
    assert found.Err? ==> Paths.PathFault(raw, path, found.error, codec);
  }

  lemma SlotResolves(p: Part, scope: Scope, codec: Codec)
    requires !p.Literal?
    ensures ResolveRef(PartRef(p), scope, codec) == SlotValue(p, scope, codec)
  {
    if p.OutputSlot? && p.stepId in scope.outputs { Paths.LookupMeans(scope.outputs[p.stepId], p.path, codec); }
  }

  /** The reference meaning of a template: values in place of references, first failure wins. */
  ghost function Substituted(parts: seq<Part>, scope: Scope, codec: Codec): Result<string, Error> {
    if parts == [] then Ok([])
    else
      var head := if parts[0].Literal? then Ok(parts[0].text) else SlotValue(parts[0], scope, codec);
      match head
      case Err(e) => Err(e)
      case Ok(v) =>
        match Substituted(parts[1..], scope, codec)
        case Err(e) => Err(e)
        case Ok(rest) => Ok(v + rest)
  }

  // ---------------------------------------------------------- cutting a rendering

  lemma {:induction false} RunStops(x: string, y: string)
    requires BraceFree(x) && (y != [] ==> IsBrace(y[0]))
    ensures BraceFreeRun(x + y) == |x|
  {
    if x == [] {
      assert x + y == y;
    } else {
      assert (x + y)[1..] == x[1..] + y;
      RunStops(x[1..], y);
    }
  }

  lemma {:induction false} JoinKeepsBraceFree(parts: seq<string>)
    requires forall i :: 0 <= i < |parts| ==> BraceFree(parts[i])
    ensures BraceFree(Join(parts))
  {
    if |parts| > 1 {
      JoinKeepsBraceFree(parts[1..]);
      assert BraceFree(parts[0]) && BraceFree(".");
    }
  }

  lemma {:induction false} JoinEnds(parts: seq<string>)
    requires parts != [] && forall i :: 0 <= i < |parts| ==> |parts[i]| > 0
    ensures Join(parts) != [] && Join(parts)[0] == parts[0][0]
    ensures var last := parts[|parts|-1]; Join(parts)[|Join(parts)|-1] == last[|last|-1]
  {
    if |parts| > 1 {
      var rest := Join(parts[1..]);
      JoinEnds(parts[1..]);
      assert |parts[0]| > 0 && Join(parts) == parts[0] + ("." + rest);
      assert Join(parts)[|Join(parts)|-1] == rest[|rest|-1];
      assert parts[1..][|parts|-2] == parts[|parts|-1];
    }
  }

  lemma NamesAreClean(p: Part)
    requires !p.Literal? && WellFormed(p)
    ensures Trimmed(Join(Names(p))) && BraceFree(Join(Names(p)))
    ensures Split(Join(Names(p))) == Names(p)
  {
    var names := Names(p);
    forall i | 0 <= i < |names|
      ensures IsPathSegment(names[i]) && BraceFree(names[i]) && DotFree(names[i])
    {
      if p.OutputSlot? && i >= 3 { assert names[i] == p.path[i-3]; }
    }
    JoinKeepsBraceFree(names);
    JoinEnds(names);
    var last := names[|names|-1];
    assert IsPathSegment(last) && IsPathSegment(names[0]);
    assert IsPathChar(last[|last|-1]) && IsPathChar(names[0][0]);
    SplitJoin(names);
  }

  lemma SlotRefOf(p: Part)
    requires !p.Literal? && WellFormed(p)
    ensures |PartText(p)| >= 4 && RefOf(PartText(p)) == Ok(PartRef(p))
  {
    var names, raw := Names(p), PartText(p);
    NamesAreClean(p);
    assert raw[2..|raw|-2] == p.lead + Join(names) + p.trail;
    TrimSpaceDropsBlank(p.lead, Join(names), p.trail);
    if p.OutputSlot? { assert names[3..] == p.path; }
  }

  lemma SlotTokens(p: Part, rest: string)
    requires !p.Literal? && WellFormed(p)
    ensures Tokens(PartText(p) + rest) == [Match(PartText(p))] + Tokens(rest)
  {
    var raw := PartText(p);
    var s := raw + rest;
    NamesAreClean(p);
    var inner := p.lead + Join(Names(p)) + p.trail;
    BracedMatches(inner, rest);
    assert s[..|raw|] == raw && s[|raw|..] == rest;
  }

  lemma BracedMatches(inner: string, rest: string)
    requires BraceFree(inner) && inner != []
    ensures var s := "{{" + inner + "}}" + rest; MatchesHead(s) && MatchLength(s) == |inner| + 4
  {
    var s := "{{" + inner + "}}" + rest;
    assert s[2..] == inner + ("}}" + rest);
    RunStops(inner, "}}" + rest);
  }

  ghost function Chars(t: string): seq<Token> {
    seq(|t|, i requires 0 <= i < |t| => Char(t[i]))
  }

  lemma {:induction false} LiteralTokens(t: string, rest: string)
    requires BraceFree(t)
    ensures Tokens(t + rest) == Chars(t) + Tokens(rest)
  {
    if t == [] {
      assert t + rest == rest && Chars(t) == [];
    } else {
      var s := t + rest;
      assert s[1..] == t[1..] + rest && s[0] in t && !MatchesHead(s);
      LiteralTokens(t[1..], rest);
      assert Chars(t) == [Char(t[0])] + Chars(t[1..]);
    }
  }

  lemma CharsParts(t: string, scope: Scope, codec: Codec)
    requires BraceFree(t)
    ensures WellCut(Chars(t)) && NoStrayBrace(Chars(t))
    ensures RefsIn(Chars(t)) == Ok([]) && Fill(Chars(t), scope, codec) == t
  {
    if t != [] {
      assert Chars(t) == [Char(t[0])] + Chars(t[1..]);
      CharsParts(t[1..], scope, codec);
    }
  }

  /** The tokens of one part followed by anything. */
  ghost function PartTokens(p: Part): seq<Token> {
    if p.Literal? then Chars(p.text) else [Match(PartText(p))]
  }

  lemma PartCut(p: Part, rest: string, scope: Scope, codec: Codec)
    requires WellFormed(p)
    ensures Tokens(PartText(p) + rest) == PartTokens(p) + Tokens(rest)
    ensures WellCut(PartTokens(p)) && NoStrayBrace(PartTokens(p))
    ensures RefsIn(PartTokens(p)) == Ok(if p.Literal? then [] else [PartRef(p)])
    ensures Fill(PartTokens(p), scope, codec) == if p.Literal? then p.text else ValueOf(PartText(p), scope, codec)
  {
    if p.Literal? {
      LiteralTokens(p.text, rest);
      CharsParts(p.text, scope, codec);
    } else {
      SlotTokens(p, rest);
      SlotRefOf(p);
      var one := PartTokens(p);
      assert one[1..] == [] && [PartRef(p)] + [] == [PartRef(p)];
    }
  }

  /** ParseRefs on a rendering returns its references, in order. */
  lemma {:induction false} RenderParses(parts: seq<Part>)
    requires AllWellFormed(parts)
    ensures Parsed(Render(parts)) == Ok(PartRefs(parts))
  {
    if parts != [] {
      var p, rest := parts[0], parts[1..];
      RenderParses(rest);
      PartCut(p, Render(rest), Scope(map[], map[]), Codec(_ => None, _ => "", _ => "", (_, _) => None));
      TokensWellCut(Render(rest));
      RefsInAppend(PartTokens(p), Tokens(Render(rest)));
    }
  }

  ghost predicate Resolves(refs: seq<Ref>, scope: Scope, codec: Codec) {
    forall ref <- refs :: ResolveRef(ref, scope, codec).Ok?
  }

  /** Resolve fails exactly when some reference does not resolve. */
  lemma {:induction false} FirstFailureIff(refs: seq<Ref>, scope: Scope, codec: Codec)
    ensures FirstFailure(refs, scope, codec).None? <==> Resolves(refs, scope, codec)
  {
    if refs != [] {
      FirstFailureIff(refs[1..], scope, codec);
      assert forall ref :: ref in refs <==> ref == refs[0] || ref in refs[1..];
    }
  }

  lemma {:induction false} RenderFills(parts: seq<Part>, scope: Scope, codec: Codec)
    requires AllWellFormed(parts)
    ensures WellCut(Tokens(Render(parts)))
    ensures Substituted(parts, scope, codec) ==
            match FirstFailure(PartRefs(parts), scope, codec)
            case Some(e) => Err(e)
            case None => Ok(Fill(Tokens(Render(parts)), scope, codec))
  {
    if parts != [] {
      var p, rest := parts[0], parts[1..];
      RenderFills(rest, scope, codec);
      PartCut(p, Render(rest), scope, codec);
      FillAppend(PartTokens(p), Tokens(Render(rest)), scope, codec);
      if p.Literal? {
        assert PartRefs(parts) == PartRefs(rest);
      } else {
        SlotRefOf(p);
        SlotResolves(p, scope, codec);
        assert PartRefs(parts)[0] == PartRef(p) && PartRefs(parts)[1..] == PartRefs(rest);
      }
    }
  }

  /** Resolve on a rendering is substitution: every literal is kept, every reference is replaced
      by its value, and the values themselves are never looked at again. */
  lemma ResolveIsSubstitution(parts: seq<Part>, scope: Scope, codec: Codec)
    requires AllWellFormed(parts)
    ensures Resolved(Render(parts), scope, codec) == Substituted(parts, scope, codec)
  {
    RenderParses(parts);
    RenderFills(parts, scope, codec);
  }

  ghost predicate SlotFails(p: Part, scope: Scope, codec: Codec, e: Error) {
    match p
    case Literal(_) => false
    case InputSlot(_, name, _) => name !in scope.inputs && e == UnresolvedInput(name)
    case OutputSlot(_, id, path, _) =>
      if id !in scope.outputs then e == UnresolvedOutput(id)
      else path != [] && e.PathFailed? && Paths.PathFault(scope.outputs[id], path, e.why, codec)
  }

  /** The k-th part is the first that has no value, for this reason. */
  ghost predicate FirstFails(parts: seq<Part>, k: nat, scope: Scope, codec: Codec, e: Error) {
    k < |parts| && SlotFails(parts[k], scope, codec, e) && forall j, e' :: 0 <= j < k ==> !SlotFails(parts[j], scope, codec, e')
  }

  lemma SlotFailsIff(p: Part, scope: Scope, codec: Codec, e: Error)
    requires !p.Literal?
    ensures SlotValue(p, scope, codec) == Err(e) <==> SlotFails(p, scope, codec, e)
  {
    SlotResolves(p, scope, codec);
    if p.OutputSlot? && p.stepId in scope.outputs { Paths.LookupMeans(scope.outputs[p.stepId], p.path, codec); }
  }

  lemma {:induction false} SubstitutedFails(parts: seq<Part>, scope: Scope, codec: Codec, e: Error)
    ensures Substituted(parts, scope, codec) == Err(e) <==> exists k: nat :: FirstFails(parts, k, scope, codec, e)
  {
    if parts != [] {
      var p, rest := parts[0], parts[1..];
      if !p.Literal? {
        forall e' ensures SlotValue(p, scope, codec) == Err(e') <==> SlotFails(p, scope, codec, e') { SlotFailsIff(p, scope, codec, e'); }
      }
      SubstitutedFails(rest, scope, codec, e);
      if k: nat :| FirstFails(parts, k, scope, codec, e) {
        if k > 0 {
          assert !SlotFails(parts[0], scope, codec, e);
          TailFails(parts, k, scope, codec, e);
        }
      }
      if k: nat :| FirstFails(rest, k, scope, codec, e) {
        if forall e' :: !SlotFails(p, scope, codec, e') { HeadPasses(parts, k, scope, codec, e); }
      }
      if SlotFails(p, scope, codec, e) { assert FirstFails(parts, 0, scope, codec, e); }
    }
  }

  lemma TailFails(parts: seq<Part>, k: nat, scope: Scope, codec: Codec, e: Error)
    requires k > 0 && FirstFails(parts, k, scope, codec, e)
    ensures FirstFails(parts[1..], k - 1, scope, codec, e) && forall e' :: !SlotFails(parts[0], scope, codec, e')
  {
    forall j, e' | 0 <= j < k - 1 ensures !SlotFails(parts[1..][j], scope, codec, e') { assert !SlotFails(parts[j+1], scope, codec, e'); }
  }

  lemma HeadPasses(parts: seq<Part>, k: nat, scope: Scope, codec: Codec, e: Error)
    requires parts != [] && FirstFails(parts[1..], k, scope, codec, e) && forall e' :: !SlotFails(parts[0], scope, codec, e')
    ensures FirstFails(parts, k + 1, scope, codec, e)
  {
    forall j, e' | 0 <= j < k + 1 ensures !SlotFails(parts[j], scope, codec, e') {
      if j > 0 { assert !SlotFails(parts[1..][j-1], scope, codec, e'); }
    }
  }

  /** Resolve fails exactly on the first slot that has no value: a name that is not in scope, an output
      that is not JSON, or a path that leads nowhere in it. */
  lemma ResolveFailsIff(parts: seq<Part>, scope: Scope, codec: Codec, e: Error)
    requires AllWellFormed(parts)
    ensures Resolved(Render(parts), scope, codec) == Err(e) <==> exists k: nat :: FirstFails(parts, k, scope, codec, e)
  {
    ResolveIsSubstitution(parts, scope, codec);
    SubstitutedFails(parts, scope, codec, e);
  }

  // ------------------------------------------------------ accepted means rendered

  lemma MatchIsSlot(s: string) returns (p: Part)
    requires MatchesHead(s) && RefOf(s[..MatchLength(s)]).Ok?
    ensures WellFormed(p) && !p.Literal? && PartText(p) == s[..MatchLength(s)]
  {
    var raw := s[..MatchLength(s)];
    var inner := raw[2..|raw|-2];
    assert raw == "{{" + inner + "}}";
    var lead, trail := TrimSpaceSplits(inner);
    var body := TrimSpace(inner);
    JoinSplit(body);
    var names := Split(body);
    match RefOf(raw).value
    case InputRef(name, _) =>
      assert names == ["inputs", name];
      p := InputSlot(lead, name, trail);
    case OutputRef(id, path, _) =>
      assert names == ["steps", id, "output"] + path;
      p := OutputSlot(lead, id, path, trail);
  }

  lemma {:induction false} AcceptedIsRendered(s: string) returns (parts: seq<Part>)
    requires Parsed(s).Ok?
    ensures AllWellFormed(parts) && Render(parts) == s
  {
    if s == [] {
      parts := [];
    } else {
      var n := HeadLength(s);
      var toks := Tokens(s);
      TokensWellCut(s);
      TokensWellCut(s[n..]);
      assert toks[0] == HeadToken(s) && toks[1..] == Tokens(s[n..]);
      assert NoStrayBrace(toks[1..]);
      var rest := AcceptedIsRendered(s[n..]);
      var p: Part;
      if MatchesHead(s) {
        p := MatchIsSlot(s);
      } else {
        assert toks[0] == Char(s[0]) && toks[0] in toks;
        p := Literal(s[..1]);
      }
      parts := [p] + rest;
      assert s == s[..n] + s[n..] && parts[1..] == rest;
    }
  }

  /** ParseRefs accepts a text if and only if it is a rendering of well-formed parts. */
  lemma AcceptsIff(s: string)
    ensures Parsed(s).Ok? <==> exists parts :: AllWellFormed(parts) && Render(parts) == s
  {
    if Parsed(s).Ok? {
      var parts := AcceptedIsRendered(s);
    }
    forall parts | AllWellFormed(parts) && Render(parts) == s ensures Parsed(s).Ok? {
      RenderParses(parts);
    }
  }

  // ---------------------------------------------------------------------- locality

  ghost function Get(m: map<string, string>, k: string): Option<string> {
    if k in m then Some(m[k]) else None
  }

  /** Two scopes that hold the same values for the references of a text. */
  ghost predicate SameOn(refs: seq<Ref>, a: Scope, b: Scope) {
    forall i :: 0 <= i < |refs| ==> SameFor(refs[i], a, b)
  }

  ghost predicate SameFor(ref: Ref, a: Scope, b: Scope) {
    match ref
    case InputRef(name, _) => Get(a.inputs, name) == Get(b.inputs, name)
    case OutputRef(id, _, _) => Get(a.outputs, id) == Get(b.outputs, id)
  }

  lemma {:induction false} FirstFailureLocal(refs: seq<Ref>, a: Scope, b: Scope, codec: Codec)
    requires SameOn(refs, a, b)
    ensures FirstFailure(refs, a, codec) == FirstFailure(refs, b, codec)
  {
    if refs != [] {
      FirstFailureLocal(refs[1..], a, b, codec);
    }
  }

  lemma {:induction false} FillLocal(toks: seq<Token>, a: Scope, b: Scope, codec: Codec)
    requires WellCut(toks) && RefsIn(toks).Ok? && SameOn(RefsIn(toks).value, a, b)
    ensures Fill(toks, a, codec) == Fill(toks, b, codec)
  {
    if toks != [] {
      var refs := RefsIn(toks).value;
      if toks[0].Match? {
        assert refs[1..] == RefsIn(toks[1..]).value;
        assert RefOf(toks[0].raw) == Ok(refs[0]);
      }
      FillLocal(toks[1..], a, b, codec);
    }
  }

  /** Resolving reads nothing of the scope but the references of the text. */
  lemma ResolvedLocal(s: string, a: Scope, b: Scope, codec: Codec)
    requires Parsed(s).Ok? ==> SameOn(Parsed(s).value, a, b)
    ensures Resolved(s, a, codec) == Resolved(s, b, codec)
  {
    if Parsed(s).Ok? {
      TokensWellCut(s);
      FirstFailureLocal(Parsed(s).value, a, b, codec);
      FillLocal(Tokens(s), a, b, codec);
    }
  }

  ghost predicate InScope(refs: seq<Ref>, scope: Scope) {
    forall i :: 0 <= i < |refs| ==>
      match refs[i]
      case InputRef(name, _) => name in scope.inputs
      case OutputRef(id, _, _) => id in scope.outputs
  }

  /** With every input and output in scope, only a JSON path can make Resolve fail. */
  lemma ResolveFailsOnlyOnPath(s: string, scope: Scope, codec: Codec)
    requires Parsed(s).Ok? && InScope(Parsed(s).value, scope)
    ensures Resolved(s, scope, codec).Err? ==> Resolved(s, scope, codec).error.PathFailed?
  {
    FailureIsPath(Parsed(s).value, scope, codec);
  }

  lemma {:induction false} FailureIsPath(refs: seq<Ref>, scope: Scope, codec: Codec)
    requires InScope(refs, scope)
    ensures match FirstFailure(refs, scope, codec) case Some(e) => e.PathFailed? case None => true
  {
    if refs != [] {
      FailureIsPath(refs[1..], scope, codec);
    }
  }
}
