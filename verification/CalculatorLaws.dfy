/** The evaluator against its grammar: it succeeds on exactly the texts the grammar derives and
    whose tree has a value, and it evaluates printed expressions to their value. */
module CalculatorLaws {
  import opened Prelude
  import opened Calculator

  // ------------------------------------------------------------------- the grammar

  predicate IsSum(op: Op) {
    op == Add || op == Sub
  }

  function OpChar(op: Op): char {
    match op case Add => '+' case Sub => '-' case Mul => '*' case Div => '/'
  }

  /** The operator stands at the first character after k that is no white space, before j. */
  predicate OpAfter(s: string, k: nat, op: Op, j: nat) {
    k <= |s| && j <= |s| && SkipSpace(s, k) < j && s[SkipSpace(s, k)] == OpChar(op)
  }

  /** expr = term | expr ("+" | "-") term, on the characters i..j of the text. */
  ghost predicate DerivesExpr(t: Tree, s: string, i: nat, j: nat)
    decreases t, 2
  {
    if t.Bin? && IsSum(t.op) then
      exists k: nat :: DerivesExpr(t.l, s, i, k) && OpAfter(s, k, t.op, j) && DerivesTerm(t.r, s, SkipSpace(s, k) + 1, j)
    else DerivesTerm(t, s, i, j)
  }

  /** term = factor | term ("*" | "/") factor */
  ghost predicate DerivesTerm(t: Tree, s: string, i: nat, j: nat)
    decreases t, 1
  {
    if t.Bin? && !IsSum(t.op) then
      exists k: nat :: DerivesTerm(t.l, s, i, k) && OpAfter(s, k, t.op, j) && DerivesFactor(t.r, s, SkipSpace(s, k) + 1, j)
    else DerivesFactor(t, s, i, j)
  }

  /** factor = "-" factor | "+" factor | "(" expr ")" | number, after white space */
  ghost predicate DerivesFactor(t: Tree, s: string, i: nat, j: nat)
    decreases t, 0
  {
    && i < j <= |s| && SkipSpace(s, i) < j
    && var k := SkipSpace(s, i);
       match t
       case Neg(e) => s[k] == '-' && DerivesFactor(e, s, k + 1, j)
       case Pos(e) => s[k] == '+' && DerivesFactor(e, s, k + 1, j)
       case Paren(e) => s[k] == '(' && s[j-1] == ')' && exists m: nat :: m <= |s| && DerivesExpr(e, s, k + 1, m) && SkipSpace(s, m) == j - 1
       case Num(text) => text == s[k..j] && forall n :: k <= n < j ==> IsNumeric(s[n])
       case Bin(_, _, _) => false
  }

  /** The whole text, up to trailing white space, derives the tree. */
  ghost predicate Derives(t: Tree, s: string) {
    exists j: nat :: j <= |s| && DerivesExpr(t, s, 0, j) && SkipSpace(s, j) == |s|
  }

  // -------------------------------------------------------- every parse is a derivation

  lemma SkipIdempotent(s: string, i: nat)
    requires i <= |s|
    ensures SkipSpace(s, SkipSpace(s, i)) == SkipSpace(s, i)
  {
  }

  lemma BinTerm(op: Op, l: Tree, r: Tree, s: string, i: nat, k: nat, j: nat)
    requires !IsSum(op) && DerivesTerm(l, s, i, k) && OpAfter(s, k, op, j)
    requires DerivesFactor(r, s, SkipSpace(s, k) + 1, j)
    ensures DerivesTerm(Bin(op, l, r), s, i, j)
  {
  }

  lemma BinExpr(op: Op, l: Tree, r: Tree, s: string, i: nat, k: nat, j: nat)
    requires IsSum(op) && DerivesExpr(l, s, i, k) && OpAfter(s, k, op, j)
    requires DerivesTerm(r, s, SkipSpace(s, k) + 1, j)
    ensures DerivesExpr(Bin(op, l, r), s, i, j)
  {
  }

  lemma TermTurnIff(s: string, p: nat, op: Op, right: Tree, next: nat)
    requires p <= |s|
    ensures TermTurn(s, p) == Go(op, right, next) <==>
      !IsSum(op) && OpAfter(s, p, op, |s|) && ParseFactor(s, SkipSpace(s, p) + 1) == At(right, next)
  {
  }

  lemma ExprTurnIff(s: string, p: nat, op: Op, right: Tree, next: nat)
    requires p <= |s|
    ensures ExprTurn(s, p) == Go(op, right, next) <==>
      IsSum(op) && OpAfter(s, p, op, |s|) && ParseTerm(s, SkipSpace(s, p) + 1) == At(right, next)
  {
  }

  lemma {:induction false} FactorSound(s: string, i: nat)
    requires i <= |s| && ParseFactor(s, i).At?
    ensures DerivesFactor(ParseFactor(s, i).tree, s, i, ParseFactor(s, i).pos)
    decreases |s| - i, 1
  {
    var j := SkipSpace(s, i);
    ParsedFactor(s, i);
    if s[j] == '-' || s[j] == '+' {
      var q := ParseFactor(s, j + 1);
      FactorSound(s, j + 1);
      DeriveSigned(s, i, q.tree, q.pos);
    } else if s[j] == '(' {
      ParenSound(s, i);
    } else {
      DeriveNumber(s, i);
    }
  }

  lemma {:induction false} ParenSound(s: string, i: nat)
    requires i <= |s| && ParseFactor(s, i).At? && SkipSpace(s, i) < |s| && s[SkipSpace(s, i)] == '('
    ensures DerivesFactor(ParseFactor(s, i).tree, s, i, ParseFactor(s, i).pos)
    decreases |s| - i, 0
  {
    var j := SkipSpace(s, i);
    ParsedFactor(s, i);
    var k := ExprSound(s, j + 1);
    SkipIdempotent(s, k);
    DeriveParen(s, i, ParseExpr(s, j + 1).tree, k, ParseFactor(s, i).pos);
  }

  /** What a parsed factor is made of, by its first character. */
  lemma ParsedFactor(s: string, i: nat)
    requires i <= |s| && ParseFactor(s, i).At?
    ensures var j := SkipSpace(s, i);
            && j < |s|
            && (s[j] == '-' ==> ParseFactor(s, j + 1).At? && ParseFactor(s, i) == At(Neg(ParseFactor(s, j + 1).tree), ParseFactor(s, j + 1).pos))
            && (s[j] == '+' ==> ParseFactor(s, j + 1).At? && ParseFactor(s, i) == At(Pos(ParseFactor(s, j + 1).tree), ParseFactor(s, j + 1).pos))
            && (s[j] == '(' ==>
                  var p := ParseExpr(s, j + 1);
                  p.At? && SkipSpace(s, p.pos) < |s| && s[SkipSpace(s, p.pos)] == ')' && ParseFactor(s, i) == At(Paren(p.tree), SkipSpace(s, p.pos) + 1))
  {
  }

  lemma DeriveSigned(s: string, i: nat, e: Tree, j: nat)
    requires i <= |s| && SkipSpace(s, i) < |s| && DerivesFactor(e, s, SkipSpace(s, i) + 1, j)
    ensures s[SkipSpace(s, i)] == '-' ==> DerivesFactor(Neg(e), s, i, j)
    ensures s[SkipSpace(s, i)] == '+' ==> DerivesFactor(Pos(e), s, i, j)
  {
  }

  lemma DeriveParen(s: string, i: nat, e: Tree, m: nat, j: nat)
    requires i <= |s| && SkipSpace(s, i) < |s| && s[SkipSpace(s, i)] == '(' && SkipSpace(s, i) + 1 < m <= |s|
    requires DerivesExpr(e, s, SkipSpace(s, i) + 1, m) && SkipSpace(s, m) == j - 1 && j <= |s| && s[j-1] == ')'
    ensures DerivesFactor(Paren(e), s, i, j)
  {
  }

  lemma DeriveNumber(s: string, i: nat)
    requires i <= |s| && ParseFactor(s, i).At? && s[SkipSpace(s, i)..] != [] && s[SkipSpace(s, i)] !in ['-', '+', '(']
    ensures DerivesFactor(ParseFactor(s, i).tree, s, i, ParseFactor(s, i).pos)
  {
  }

  lemma {:induction false} TermSound(s: string, i: nat) returns (k: nat)
    requires i <= |s| && ParseTerm(s, i).At?
    ensures i < k <= |s| && DerivesTerm(ParseTerm(s, i).tree, s, i, k) && SkipSpace(s, k) == ParseTerm(s, i).pos
    decreases |s| - i, 3
  {
    FactorSound(s, i);
    var f := ParseFactor(s, i);
    k := TermLoopSound(s, f.tree, i, f.pos, f.pos);
  }

  lemma {:induction false} TermLoopSound(s: string, left: Tree, i: nat, k0: nat, p: nat) returns (k: nat)
    requires i < p <= |s| && i < k0 <= |s| && SkipSpace(s, k0) == SkipSpace(s, p)
    requires DerivesTerm(left, s, i, k0) && TermLoop(s, left, p).At?
    ensures i < k <= |s| && DerivesTerm(TermLoop(s, left, p).tree, s, i, k) && SkipSpace(s, k) == TermLoop(s, left, p).pos
    decreases |s| - p, 2
  {
    k := k0;
    if TermTurn(s, p).Go? {
      var Go(op, right, next) := TermTurn(s, p);
      TermTurnSound(s, left, i, k0, p, op, right, next);
      TermLoopGoes(s, left, p);
      k := TermLoopSound(s, Bin(op, left, right), i, next, next);
    } else {
      TermLoopEnds(s, left, p);
    }
  }

  lemma {:induction false} TermTurnSound(s: string, left: Tree, i: nat, k0: nat, p: nat, op: Op, right: Tree, next: nat)
    requires i < p <= |s| && i < k0 <= |s| && SkipSpace(s, k0) == SkipSpace(s, p)
    requires DerivesTerm(left, s, i, k0) && TermTurn(s, p) == Go(op, right, next)
    ensures DerivesTerm(Bin(op, left, right), s, i, next)
    decreases |s| - p, 1
  {
    TermTurnIff(s, p, op, right, next);
    var q := SkipSpace(s, p) + 1;
    FactorSound(s, q);
    FactorAfter(s, k0, p, op, right, next);
    BinTerm(op, left, right, s, i, k0, next);
  }

  lemma FactorAfter(s: string, k0: nat, p: nat, op: Op, right: Tree, next: nat)
    requires p <= |s| && k0 <= |s| && SkipSpace(s, k0) == SkipSpace(s, p) && OpAfter(s, p, op, |s|)
    requires DerivesFactor(right, s, SkipSpace(s, p) + 1, next)
    ensures OpAfter(s, k0, op, next) && DerivesFactor(right, s, SkipSpace(s, k0) + 1, next)
  {
  }

  lemma TermLoopGoes(s: string, left: Tree, p: nat)
    requires p <= |s| && TermTurn(s, p).Go?
    ensures var turn := TermTurn(s, p); TermLoop(s, left, p) == TermLoop(s, Bin(turn.op, left, turn.right), turn.next)
  {
  }

  lemma TermLoopEnds(s: string, left: Tree, p: nat)
    requires p <= |s| && !TermTurn(s, p).Go? && TermLoop(s, left, p).At?
    ensures TermLoop(s, left, p) == At(left, SkipSpace(s, p))
  {
  }

  lemma {:induction false} ExprSound(s: string, i: nat) returns (k: nat)
    requires i <= |s| && ParseExpr(s, i).At?
    ensures i < k <= |s| && DerivesExpr(ParseExpr(s, i).tree, s, i, k) && SkipSpace(s, k) == ParseExpr(s, i).pos
    decreases |s| - i, 6
  {
    var k0 := TermSound(s, i);
    var f := ParseTerm(s, i);
    SkipIdempotent(s, k0);
    k := ExprLoopSound(s, f.tree, i, k0, f.pos);
  }

  lemma {:induction false} ExprLoopSound(s: string, left: Tree, i: nat, k0: nat, p: nat) returns (k: nat)
    requires i < p <= |s| && i < k0 <= |s| && SkipSpace(s, k0) == SkipSpace(s, p)
    requires DerivesExpr(left, s, i, k0) && ExprLoop(s, left, p).At?
    ensures i < k <= |s| && DerivesExpr(ExprLoop(s, left, p).tree, s, i, k) && SkipSpace(s, k) == ExprLoop(s, left, p).pos
    decreases |s| - p, 5
  {
    k := k0;
    match ExprTurn(s, p)
    case Go(op, right, next) =>
      ExprTurnIff(s, p, op, right, next);
      var k1 := TermSound(s, SkipSpace(s, p) + 1);
      SkipIdempotent(s, k1);
      BinExpr(op, left, right, s, i, k0, k1);
      k := ExprLoopSound(s, Bin(op, left, right), i, k1, next);
    case _ =>
  }

  // -------------------------------------------------------- every derivation is parsed

  /** A number that ends at j is not followed by more of a number. */
  predicate NumberEnds(s: string, j: nat) {
    j < |s| ==> !IsNumeric(s[j])
  }

  /** No product continues after k. */
  predicate ProductEnds(s: string, k: nat)
    requires k <= |s|
  {
    var j := SkipSpace(s, k);
    j < |s| ==> s[j] != '*' && s[j] != '/'
  }

  lemma {:induction false} NumberScanned(s: string, k: nat, j: nat)
    requires k <= j <= |s| && NumberEnds(s, j) && forall n :: k <= n < j ==> IsNumeric(s[n])
    ensures SkipNumber(s, k) == j
    decreases j - k
  {
    if k < j { NumberScanned(s, k + 1, j); }
  }

  /** Before an operator or a closing parenthesis a number ends, and so does a product unless the
      operator continues it. */
  lemma CharFollows(s: string, m: nat)
    requires m <= |s| && SkipSpace(s, m) < |s| && s[SkipSpace(s, m)] in ['+', '-', '*', '/', ')']
    ensures NumberEnds(s, m)
    ensures s[SkipSpace(s, m)] in ['+', '-', ')'] ==> ProductEnds(s, m)
  {
    assert m == SkipSpace(s, m) || IsSpace(s[m]);
  }

  lemma ParseSigned(s: string, i: nat, e: Tree, j: nat)
    requires i <= |s| && SkipSpace(s, i) < |s| && ParseFactor(s, SkipSpace(s, i) + 1) == At(e, j)
    ensures s[SkipSpace(s, i)] == '-' ==> ParseFactor(s, i) == At(Neg(e), j)
    ensures s[SkipSpace(s, i)] == '+' ==> ParseFactor(s, i) == At(Pos(e), j)
  {
  }

  lemma ParseNumber(s: string, i: nat, j: nat)
    requires i <= |s| && SkipSpace(s, i) < j <= |s| && NumberEnds(s, j)
    requires forall n :: SkipSpace(s, i) <= n < j ==> IsNumeric(s[n])
    ensures ParseFactor(s, i) == At(Num(s[SkipSpace(s, i)..j]), j)
  {
    assert IsNumeric(s[SkipSpace(s, i)]);
    NumberScanned(s, SkipSpace(s, i), j);
  }

  lemma ParseParen(s: string, i: nat, e: Tree, j: nat)
    requires i <= |s| && SkipSpace(s, i) < |s| && s[SkipSpace(s, i)] == '('
    requires 0 < j <= |s| && ParseExpr(s, SkipSpace(s, i) + 1) == At(e, j - 1) && SkipSpace(s, j - 1) == j - 1 && s[j-1] == ')'
    ensures ParseFactor(s, i) == At(Paren(e), j)
  {
  }

  lemma ClosedExpr(s: string, e: Tree, i: nat, m: nat, j: nat)
    requires i <= |s| && m <= |s| && ParseExpr(s, i) == ExprLoop(s, e, m)
    requires 0 < j <= |s| && SkipSpace(s, m) == j - 1 && s[j-1] == ')'
    ensures ParseExpr(s, i) == At(e, j - 1) && SkipSpace(s, j - 1) == j - 1
  {
    assert ExprTurn(s, m) == Stop(j - 1);
    SkipIdempotent(s, m);
  }

  lemma {:induction false} FactorComplete(t: Tree, s: string, i: nat, j: nat)
    requires DerivesFactor(t, s, i, j) && NumberEnds(s, j)
    ensures ParseFactor(s, i) == At(t, j)
    decreases t, 0
  {
    if t.Neg? || t.Pos? {
      SignedPart(t, s, i, j);
      FactorComplete(t.e, s, SkipSpace(s, i) + 1, j);
      ParseSigned(s, i, t.e, j);
    } else if t.Paren? {
      var m := ParenPart(t, s, i, j);
      ParenComplete(t.e, s, SkipSpace(s, i) + 1, m, j);
      ParseParen(s, i, t.e, j);
    } else if t.Num? {
      ParseNumber(s, i, j);
    }
  }

  lemma SignedPart(t: Tree, s: string, i: nat, j: nat)
    requires (t.Neg? || t.Pos?) && DerivesFactor(t, s, i, j)
    ensures i < j <= |s| && SkipSpace(s, i) < j && s[SkipSpace(s, i)] == (if t.Neg? then '-' else '+')
    ensures DerivesFactor(t.e, s, SkipSpace(s, i) + 1, j)
  {
  }

  lemma ParenPart(t: Tree, s: string, i: nat, j: nat) returns (m: nat)
    requires t.Paren? && DerivesFactor(t, s, i, j)
    ensures i < j <= |s| && SkipSpace(s, i) < j && s[SkipSpace(s, i)] == '(' && s[j-1] == ')'
    ensures m <= |s| && DerivesExpr(t.e, s, SkipSpace(s, i) + 1, m) && SkipSpace(s, m) == j - 1
  {
    m :| m <= |s| && DerivesExpr(t.e, s, SkipSpace(s, i) + 1, m) && SkipSpace(s, m) == j - 1;
  }

  lemma {:induction false} ParenComplete(e: Tree, s: string, i: nat, m: nat, j: nat)
    requires m <= |s| && DerivesExpr(e, s, i, m) && 0 < j <= |s| && SkipSpace(s, m) == j - 1 && s[j-1] == ')'
    ensures i <= |s| && ParseExpr(s, i) == At(e, j - 1) && SkipSpace(s, j - 1) == j - 1
    decreases e, 3
  {
    CharFollows(s, m);
    ExprComplete(e, s, i, m);
    ClosedExpr(s, e, i, m, j);
  }

  lemma {:induction false} TermComplete(t: Tree, s: string, i: nat, k: nat)
    requires DerivesTerm(t, s, i, k) && k <= |s| && NumberEnds(s, k)
    ensures i <= |s| && ParseTerm(s, i) == TermLoop(s, t, k)
    decreases t, 1
  {
    if t.Bin? && !IsSum(t.op) {
      var k1: nat :| DerivesTerm(t.l, s, i, k1) && OpAfter(s, k1, t.op, k) && DerivesFactor(t.r, s, SkipSpace(s, k1) + 1, k);
      CharFollows(s, k1);
      TermComplete(t.l, s, i, k1);
      FactorComplete(t.r, s, SkipSpace(s, k1) + 1, k);
      TermTurnIff(s, k1, t.op, t.r, k);
    } else {
      FactorComplete(t, s, i, k);
    }
  }

  lemma LoopsSkip(s: string, t: Tree, k: nat)
    requires k <= |s|
    ensures TermLoop(s, t, SkipSpace(s, k)) == TermLoop(s, t, k) && ExprLoop(s, t, SkipSpace(s, k)) == ExprLoop(s, t, k)
    ensures ProductEnds(s, k) ==> TermLoop(s, t, k) == At(t, SkipSpace(s, k))
  {
    SkipIdempotent(s, k);
    assert TermTurn(s, SkipSpace(s, k)) == TermTurn(s, k);
    assert ExprTurn(s, SkipSpace(s, k)) == ExprTurn(s, k);
  }

  lemma {:induction false} ExprComplete(t: Tree, s: string, i: nat, k: nat)
    requires DerivesExpr(t, s, i, k) && k <= |s| && NumberEnds(s, k) && ProductEnds(s, k)
    ensures i <= |s| && ParseExpr(s, i) == ExprLoop(s, t, k)
    decreases t, 2
  {
    if t.Bin? && IsSum(t.op) {
      SumComplete(t, s, i, k);
    } else {
      LoneTerm(t, s, i, k);
      TermComplete(t, s, i, k);
      ExprFromTerm(s, t, i, k);
    }
  }

  lemma LoneTerm(t: Tree, s: string, i: nat, k: nat)
    requires !(t.Bin? && IsSum(t.op)) && DerivesExpr(t, s, i, k)
    ensures DerivesTerm(t, s, i, k)
  {
  }

  lemma {:induction false} SumComplete(t: Tree, s: string, i: nat, k: nat)
    requires t.Bin? && IsSum(t.op) && DerivesExpr(t, s, i, k) && k <= |s| && NumberEnds(s, k) && ProductEnds(s, k)
    ensures i <= |s| && ParseExpr(s, i) == ExprLoop(s, t, k)
    decreases t, 0
  {
    var k1 := SumParts(t, s, i, k);
    ExprComplete(t.l, s, i, k1);
    TermComplete(t.r, s, SkipSpace(s, k1) + 1, k);
    SumTurn(s, t, k1, k);
  }

  lemma SumParts(t: Tree, s: string, i: nat, k: nat) returns (k1: nat)
    requires t.Bin? && IsSum(t.op) && DerivesExpr(t, s, i, k)
    ensures DerivesExpr(t.l, s, i, k1) && OpAfter(s, k1, t.op, k) && DerivesTerm(t.r, s, SkipSpace(s, k1) + 1, k)
    ensures NumberEnds(s, k1) && ProductEnds(s, k1)
  {
    k1 :| DerivesExpr(t.l, s, i, k1) && OpAfter(s, k1, t.op, k) && DerivesTerm(t.r, s, SkipSpace(s, k1) + 1, k);
    CharFollows(s, k1);
  }

  /** One sum operator and its right-hand term take the loop from the left part to the whole. */
  lemma SumTurn(s: string, t: Tree, k1: nat, k: nat)
    requires t.Bin? && IsSum(t.op) && OpAfter(s, k1, t.op, k) && ProductEnds(s, k)
    requires ParseTerm(s, SkipSpace(s, k1) + 1) == TermLoop(s, t.r, k)
    ensures ExprLoop(s, t.l, k1) == ExprLoop(s, t, k)
  {
    LoopsSkip(s, t.r, k);
    LoopsSkip(s, t, k);
    ExprTurnIff(s, k1, t.op, t.r, SkipSpace(s, k));
    assert ExprTurn(s, k1) == Go(t.op, t.r, SkipSpace(s, k));
    assert ExprLoop(s, t.l, k1) == ExprLoop(s, Bin(t.op, t.l, t.r), SkipSpace(s, k));
  }

  lemma ExprFromTerm(s: string, t: Tree, i: nat, k: nat)
    requires i <= |s| && k <= |s| && ParseTerm(s, i) == TermLoop(s, t, k) && ProductEnds(s, k)
    ensures ParseExpr(s, i) == ExprLoop(s, t, k)
  {
    LoopsSkip(s, t, k);
  }

  /** The grammar is unambiguous and the parser finds its derivations. */
  lemma DerivedIsParsed(t: Tree, s: string)
    requires Derives(t, s)
    ensures ParseExpr(s, 0) == At(t, |s|)
  {
    var j: nat :| j <= |s| && DerivesExpr(t, s, 0, j) && SkipSpace(s, j) == |s|;
    ExprComplete(t, s, 0, j);
    assert ExprTurn(s, j) == Stop(|s|);
  }

  lemma ParsedIsDerived(s: string)
    requires ParseExpr(s, 0).At? && SkipSpace(s, ParseExpr(s, 0).pos) == |s|
    ensures Derives(ParseExpr(s, 0).tree, s)
  {
    var k := ExprSound(s, 0);
    SkipIdempotent(s, k);
  }

  /** eval succeeds with a value exactly when the text derives a tree with that value. */
  lemma EvalExact<N>(s: string, ops: Numbers<N>, v: N)
    ensures Evaluated(s, ops) == Some(v) <==> exists t :: Derives(t, s) && Value(t, ops) == Some(v)
  {
    if Evaluated(s, ops) == Some(v) {
      ParsedIsDerived(s);
    }
    forall t | Derives(t, s) ensures Evaluated(s, ops) == Value(t, ops) {
      DerivedIsParsed(t, s);
    }
  }

  lemma Unambiguous(s: string, t: Tree, u: Tree)
    requires Derives(t, s) && Derives(u, s)
    ensures t == u
  {
    DerivedIsParsed(t, s);
    DerivedIsParsed(u, s);
  }

  // ------------------------------------------------------------------- the alphabet

  /** Digits, the point, operators, parentheses and white space. */
  predicate InAlphabet(c: char) {
    || '0' <= c <= '9' || c == '.'
    || c == '+' || c == '-' || c == '*' || c == '/' || c == '(' || c == ')'
    || c == ' ' || 0x09 <= c as int <= 0x0D || c as int == 0x85 || c as int == 0xA0
  }

  ghost predicate Spelled(s: string, i: nat, j: nat) {
    j <= |s| && forall n :: i <= n < j ==> InAlphabet(s[n])
  }

  lemma SkipSpelled(s: string, i: nat)
    requires i <= |s|
    ensures Spelled(s, i, SkipSpace(s, i))
  {
  }

  lemma OpSpelled(s: string, k: nat, op: Op, j: nat)
    requires OpAfter(s, k, op, j)
    ensures Spelled(s, k, SkipSpace(s, k) + 1)
  {
    SkipSpelled(s, k);
  }

  lemma {:induction false} ExprSpelled(t: Tree, s: string, i: nat, j: nat)
    requires DerivesExpr(t, s, i, j)
    ensures Spelled(s, i, j)
    decreases t, 2
  {
    if t.Bin? && IsSum(t.op) {
      var k: nat :| DerivesExpr(t.l, s, i, k) && OpAfter(s, k, t.op, j) && DerivesTerm(t.r, s, SkipSpace(s, k) + 1, j);
      ExprSpelled(t.l, s, i, k);
      OpSpelled(s, k, t.op, j);
      TermSpelled(t.r, s, SkipSpace(s, k) + 1, j);
    } else {
      TermSpelled(t, s, i, j);
    }
  }

  lemma {:induction false} TermSpelled(t: Tree, s: string, i: nat, j: nat)
    requires DerivesTerm(t, s, i, j)
    ensures Spelled(s, i, j)
    decreases t, 1
  {
    if t.Bin? && !IsSum(t.op) {
      var k: nat :| DerivesTerm(t.l, s, i, k) && OpAfter(s, k, t.op, j) && DerivesFactor(t.r, s, SkipSpace(s, k) + 1, j);
      TermSpelled(t.l, s, i, k);
      OpSpelled(s, k, t.op, j);
      FactorSpelled(t.r, s, SkipSpace(s, k) + 1, j);
    } else {
      FactorSpelled(t, s, i, j);
    }
  }

  lemma {:induction false} FactorSpelled(t: Tree, s: string, i: nat, j: nat)
    requires DerivesFactor(t, s, i, j)
    ensures Spelled(s, i, j)
    decreases t, 0
  {
    SkipSpelled(s, i);
    var k := SkipSpace(s, i);
    match t
    case Neg(e) => FactorSpelled(e, s, k + 1, j);
    case Pos(e) => FactorSpelled(e, s, k + 1, j);
    case Paren(e) => ParenSpelled(e, s, k, j);
    case Num(_) =>
  }

  lemma {:induction false} ParenSpelled(e: Tree, s: string, k: nat, j: nat)
    requires k < j <= |s| && s[k] == '(' && s[j-1] == ')'
    requires exists m: nat :: m <= |s| && DerivesExpr(e, s, k + 1, m) && SkipSpace(s, m) == j - 1
    ensures Spelled(s, k, j)
    decreases e, 3
  {
    var m: nat :| m <= |s| && DerivesExpr(e, s, k + 1, m) && SkipSpace(s, m) == j - 1;
    ExprSpelled(e, s, k + 1, m);
    SkipSpelled(s, m);
  }

  /** A text with any other character in it is refused. */
  lemma EvalAlphabet<N>(s: string, ops: Numbers<N>)
    requires Evaluated(s, ops).Some?
    ensures forall c <- s :: InAlphabet(c)
  {
    ParsedIsDerived(s);
    var t := ParseExpr(s, 0).tree;
    var j: nat :| j <= |s| && DerivesExpr(t, s, 0, j) && SkipSpace(s, j) == |s|;
    ExprSpelled(t, s, 0, j);
    SkipSpelled(s, j);
  }
}
