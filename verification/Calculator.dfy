/** The arithmetic evaluator (internal/tools/eval.go): a parser that computes while it parses.
    Numbers are left abstract; no law of arithmetic is assumed of them. */
module Calculator {
  import opened Prelude

  datatype Op = Add | Sub | Mul | Div

  /** float64 and strconv.ParseFloat. */
  datatype Numbers<!N> = Numbers(
    parse: string -> Option<N>,
    neg: N -> N,
    apply: (Op, N, N) -> N,
    isZero: N -> bool)

  /** An expression as written. */
  datatype Tree =
    | Num(text: string)
    | Neg(e: Tree)
    | Pos(e: Tree)
    | Paren(e: Tree)
    | Bin(op: Op, l: Tree, r: Tree)

  /** The value of an expression; None for an unreadable number or a zero divisor. Every other operation
      has a result. */
  function Value<N>(t: Tree, ops: Numbers<N>): Option<N> {
    match t
    case Num(text) => ops.parse(text)
    case Neg(e) => (match Value(e, ops) case None => None case Some(v) => Some(ops.neg(v)))
    case Pos(e) => Value(e, ops)
    case Paren(e) => Value(e, ops)
    case Bin(op, l, r) =>
      match Value(l, ops)
      case None => None
      case Some(a) =>
        match Value(r, ops)
        case None => None
        case Some(b) => if op == Div && ops.isZero(b) then None else Some(ops.apply(op, a, b))
  }

  // ------------------------------------------------------------------- characters

  /** unicode.IsSpace of a single byte */
  predicate IsSpace(c: char) {
    '\t' <= c <= '\r' || c == ' ' || c as int == 0x85 || c as int == 0xA0
  }

  predicate IsNumeric(c: char) {
    '0' <= c <= '9' || c == '.'
  }

  function SkipSpace(s: string, i: nat): (j: nat)
    requires i <= |s|
    ensures i <= j <= |s|
    ensures j < |s| ==> !IsSpace(s[j])
    ensures forall k :: i <= k < j ==> IsSpace(s[k])
    decreases |s| - i
  {
    if i < |s| && IsSpace(s[i]) then SkipSpace(s, i + 1) else i
  }

  function SkipNumber(s: string, i: nat): (j: nat)
    requires i <= |s|
    ensures i <= j <= |s|
    ensures j < |s| ==> !IsNumeric(s[j])
    ensures forall k :: i <= k < j ==> IsNumeric(s[k])
    decreases |s| - i
  {
    if i < |s| && IsNumeric(s[i]) then SkipNumber(s, i + 1) else i
  }

  // -------------------------------------------------------- parsing without computing

  datatype Parse = Fail | At(tree: Tree, pos: nat)

  predicate Advances(p: Parse, s: string, i: nat) {
    p.At? ==> i < p.pos <= |s|
  }

  function ParseFactor(s: string, i: nat): (p: Parse)
    requires i <= |s|
    ensures Advances(p, s, i)
    decreases |s| - i, 0
  {
    var j := SkipSpace(s, i);
    if j >= |s| then Fail
    else if s[j] == '-' then
      (match ParseFactor(s, j + 1) case Fail => Fail case At(t, k) => At(Neg(t), k))
    else if s[j] == '+' then
      (match ParseFactor(s, j + 1) case Fail => Fail case At(t, k) => At(Pos(t), k))
    else if s[j] == '(' then
      match ParseExpr(s, j + 1)
      case Fail => Fail
      case At(t, k) =>
        var m := SkipSpace(s, k);
        if m >= |s| || s[m] != ')' then Fail else At(Paren(t), m + 1)
    else
      var k := SkipNumber(s, j);
      if k == j then Fail else At(Num(s[j..k]), k)
  }

  /** One turn of a loop over operators: stop, fail, or go on behind an operator and operand. */
  datatype Turn = Stop(at: nat) | Bad | Go(op: Op, right: Tree, next: nat)

  function TermTurn(s: string, i: nat): (turn: Turn)
    requires i <= |s|
    ensures turn.Stop? ==> i <= turn.at <= |s|
    ensures turn.Go? ==> i < turn.next <= |s|
    decreases |s| - i, 1
  {
    var j := SkipSpace(s, i);
    if j >= |s| || (s[j] != '*' && s[j] != '/') then Stop(j)
    else
      match ParseFactor(s, j + 1)
      case Fail => Bad
      case At(right, k) => Go(if s[j] == '*' then Mul else Div, right, k)
  }

  function TermLoop(s: string, left: Tree, i: nat): (p: Parse)
    requires i <= |s|
    ensures p.At? ==> i <= p.pos <= |s|
    decreases |s| - i, 2
  {
    match TermTurn(s, i)
    case Stop(j) => At(left, j)
    case Bad => Fail
    case Go(op, right, k) => TermLoop(s, Bin(op, left, right), k)
  }

  function ParseTerm(s: string, i: nat): (p: Parse)
    requires i <= |s|
    ensures Advances(p, s, i)
    decreases |s| - i, 3
  {
    match ParseFactor(s, i)
    case Fail => Fail
    case At(t, j) => TermLoop(s, t, j)
  }

  function ExprTurn(s: string, i: nat): (turn: Turn)
    requires i <= |s|
    ensures turn.Stop? ==> i <= turn.at <= |s|
    ensures turn.Go? ==> i < turn.next <= |s|
    decreases |s| - i, 4
  {
    var j := SkipSpace(s, i);
    if j >= |s| || (s[j] != '+' && s[j] != '-') then Stop(j)
    else
      match ParseTerm(s, j + 1)
      case Fail => Bad
      case At(right, k) => Go(if s[j] == '+' then Add else Sub, right, k)
  }

  function ExprLoop(s: string, left: Tree, i: nat): (p: Parse)
    requires i <= |s|
    ensures p.At? ==> i <= p.pos <= |s|
    decreases |s| - i, 5
  {
    match ExprTurn(s, i)
    case Stop(j) => At(left, j)
    case Bad => Fail
    case Go(op, right, k) => ExprLoop(s, Bin(op, left, right), k)
  }

  function ParseExpr(s: string, i: nat): (p: Parse)
    requires i <= |s|
    ensures Advances(p, s, i)
    decreases |s| - i, 6
  {
    match ParseTerm(s, i)
    case Fail => Fail
    case At(t, j) => ExprLoop(s, t, j)
  }

  // ------------------------------------------------------------------ the fused parser

  /** The value of a parse: nothing when it fails or its tree has no value. */
  ghost function ParseValue<N>(p: Parse, ops: Numbers<N>): Option<N> {
    match p
    case Fail => None
    case At(t, _) => Value(t, ops)
  }

  /** A loop that starts from a tree without value cannot end with a value. */
  lemma {:induction false} TermLoopStrict<N>(s: string, left: Tree, i: nat, ops: Numbers<N>)
    requires i <= |s| && Value(left, ops).None?
    ensures ParseValue(TermLoop(s, left, i), ops).None?
    decreases |s| - i
  {
    match TermTurn(s, i)
    case Go(op, right, k) => TermLoopStrict(s, Bin(op, left, right), k, ops);
    case _ =>
  }

  lemma {:induction false} ExprLoopStrict<N>(s: string, left: Tree, i: nat, ops: Numbers<N>)
    requires i <= |s| && Value(left, ops).None?
    ensures ParseValue(ExprLoop(s, left, i), ops).None?
    decreases |s| - i
  {
    match ExprTurn(s, i)
    case Go(op, right, k) => ExprLoopStrict(s, Bin(op, left, right), k, ops);
    case _ =>
  }

  /** parser: the text and the position that every method advances. A method returns the value
      of what the specification function parses from the old position, and on success ends where
      that parse ends. */
  class Parser<!N> {
    const s: string
    const ops: Numbers<N>
    var pos: nat

    constructor (s: string, ops: Numbers<N>)
      ensures this.s == s && this.ops == ops && pos == 0
    {
      this.s, this.ops, pos := s, ops, 0;
    }

    method Skip()
      requires pos <= |s|
      modifies this
      ensures pos == SkipSpace(s, old(pos))
    {
      while pos < |s| && IsSpace(s[pos])
        invariant old(pos) <= pos <= |s| && SkipSpace(s, old(pos)) == SkipSpace(s, pos)
      {
        pos := pos + 1;
      }
    }

    ghost predicate Returns(r: Option<N>, p: Parse)
      reads this
    {
      r == ParseValue(p, ops) && (r.Some? ==> pos == p.pos)
    }

    method Number() returns (r: Option<N>)
      requires pos < |s| && !IsSpace(s[pos]) && s[pos] != '-' && s[pos] != '+' && s[pos] != '('
      modifies this
      ensures Returns(r, ParseFactor(s, old(pos)))
    {
      var start := pos;
      while pos < |s| && IsNumeric(s[pos])
        invariant start <= pos <= |s| && SkipNumber(s, start) == SkipNumber(s, pos)
      {
        pos := pos + 1;
      }
      if start == pos {
        return None;
      }
      return ops.parse(s[start..pos]);
    }

    method Factor() returns (r: Option<N>)
      requires pos <= |s|
      modifies this
      ensures Returns(r, ParseFactor(s, old(pos)))
      decreases |s| - pos, 0
    {
      Skip();
      if pos >= |s| {
        return None;
      }
      if s[pos] == '-' {
        pos := pos + 1;
        var v := Factor();
        if v.None? { return None; }
        return Some(ops.neg(v.value));
      }
      if s[pos] == '+' {
        pos := pos + 1;
        r := Factor();
        return;
      }
      if s[pos] == '(' {
        pos := pos + 1;
        var v := Expr();
        if v.None? { return None; }
        Skip();
        if pos >= |s| || s[pos] != ')' {
          return None;
        }
        pos := pos + 1;
        return v;
      }
      r := Number();
    }

    method Term() returns (r: Option<N>)
      requires pos <= |s|
      modifies this
      ensures Returns(r, ParseTerm(s, old(pos)))
      decreases |s| - pos, 3
    {
      ghost var first := ParseFactor(s, pos);
      r := Factor();
      if r.None? {
        if first.At? { TermLoopStrict(s, first.tree, first.pos, ops); }
        return;
      }
      r := MoreFactors(r.value, first.tree);
    }

    /** The loop of parseTerm, entered with the value of the tree parsed so far. */
    method MoreFactors(first: N, ghost tree0: Tree) returns (r: Option<N>)
      requires pos <= |s| && Value(tree0, ops) == Some(first)
      modifies this
      ensures Returns(r, TermLoop(s, tree0, old(pos)))
      decreases |s| - pos, 2
    {
      var left := first;
      ghost var tree := tree0;
      while true
        invariant old(pos) <= pos <= |s| && Value(tree, ops) == Some(left)
        invariant TermLoop(s, tree0, old(pos)) == TermLoop(s, tree, pos)
        decreases |s| - pos
      {
        ghost var turn := TermTurn(s, pos);
        var op, right := NextFactor();
        if op.None? {
          return Some(left);
        }
        if turn.Go? { tree := Bin(op.value, tree, turn.right); }
        if right.None? || (op.value == Div && ops.isZero(right.value)) {
          if turn.Go? { TermLoopStrict(s, tree, turn.next, ops); }
          return None;
        }
        left := ops.apply(op.value, left, right.value);
      }
    }

    /** The next operator of the loop, if there is one, and its right operand. */
    method NextFactor() returns (op: Option<Op>, right: Option<N>)
      requires pos <= |s|
      modifies this
      ensures match TermTurn(s, old(pos))
              case Stop(j) => op.None? && pos == j
              case Bad => op.Some? && right.None?
              case Go(o, t, k) => op == Some(o) && right == Value(t, ops) && (right.Some? ==> pos == k)
      decreases |s| - pos, 1
    {
      Skip();
      if pos >= |s| || (s[pos] != '*' && s[pos] != '/') {
        return None, None;
      }
      op := Some(if s[pos] == '*' then Mul else Div);
      pos := pos + 1;
      right := Factor();
    }

    method Expr() returns (r: Option<N>)
      requires pos <= |s|
      modifies this
      ensures Returns(r, ParseExpr(s, old(pos)))
      decreases |s| - pos, 6
    {
      ghost var first := ParseTerm(s, pos);
      r := Term();
      if r.None? {
        if first.At? { ExprLoopStrict(s, first.tree, first.pos, ops); }
        return;
      }
      r := MoreTerms(r.value, first.tree);
    }

    /** The loop of parseExpr. */
    method MoreTerms(first: N, ghost tree0: Tree) returns (r: Option<N>)
      requires pos <= |s| && Value(tree0, ops) == Some(first)
      modifies this
      ensures Returns(r, ExprLoop(s, tree0, old(pos)))
      decreases |s| - pos, 5
    {
      var left := first;
      ghost var tree := tree0;
      while true
        invariant old(pos) <= pos <= |s| && Value(tree, ops) == Some(left)
        invariant ExprLoop(s, tree0, old(pos)) == ExprLoop(s, tree, pos)
        decreases |s| - pos
      {
        ghost var turn := ExprTurn(s, pos);
        var op, right := NextTerm();
        if op.None? {
          return Some(left);
        }
        if turn.Go? { tree := Bin(op.value, tree, turn.right); }
        if right.None? {
          if turn.Go? { ExprLoopStrict(s, tree, turn.next, ops); }
          return None;
        }
        left := ops.apply(op.value, left, right.value);
      }
    }

    /** The next operator of the loop, if there is one, and its right operand. */
    method NextTerm() returns (op: Option<Op>, right: Option<N>)
      requires pos <= |s|
      modifies this
      ensures match ExprTurn(s, old(pos))
              case Stop(j) => op.None? && pos == j
              case Bad => op.Some? && right.None?
              case Go(o, t, k) => op == Some(o) && o != Div && right == Value(t, ops) && (right.Some? ==> pos == k)
      decreases |s| - pos, 4
    {
      Skip();
      if pos >= |s| || (s[pos] != '+' && s[pos] != '-') {
        return None, None;
      }
      op := Some(if s[pos] == '+' then Add else Sub);
      pos := pos + 1;
      right := Term();
    }
  }

  /** What eval returns. */
  ghost function Evaluated<N>(s: string, ops: Numbers<N>): Option<N> {
    match ParseExpr(s, 0)
    case Fail => None
    case At(t, j) => if SkipSpace(s, j) == |s| then Value(t, ops) else None
  }

  method Eval<N>(s: string, ops: Numbers<N>) returns (r: Option<N>)
    ensures r == Evaluated(s, ops)
  {
    var p := new Parser(s, ops);
    r := p.Expr();
    if r.None? {
      return;
    }
    p.Skip();
    if p.pos != |s| {
      return None;
    }
  }
}
