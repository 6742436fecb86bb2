/** Printing expressions: the minimally parenthesised text of an expression, with any white space
    between its tokens, evaluates to the expression's value. */
module CalculatorPrinter {
  import opened Prelude
  import opened Calculator
  import opened CalculatorLaws

  /** An expression with no notion of parentheses. */
  datatype Ast = Lit(text: string) | Minus(e: Ast) | Plus(e: Ast) | Arith(op: Op, l: Ast, r: Ast)

  predicate IsNumeral(text: string) {
    text != "" && forall c <- text :: IsNumeric(c)
  }

  predicate Printable(a: Ast) {
    match a
    case Lit(text) => IsNumeral(text)
    case Minus(e) => Printable(e)
    case Plus(e) => Printable(e)
    case Arith(_, l, r) => Printable(l) && Printable(r)
  }

  function AstValue<N>(a: Ast, ops: Numbers<N>): Option<N> {
    match a
    case Lit(text) => ops.parse(text)
    case Minus(e) => (match AstValue(e, ops) case None => None case Some(v) => Some(ops.neg(v)))
    case Plus(e) => AstValue(e, ops)
    case Arith(op, l, r) =>
      match AstValue(l, ops)
      case None => None
      case Some(x) =>
        match AstValue(r, ops)
        case None => None
        case Some(y) => if op == Div && ops.isZero(y) then None else Some(ops.apply(op, x, y))
  }

  /** Where an expression stands decides whether it needs parentheses. */
  datatype Place = InExpr | InTerm | InFactor

  predicate Fits(op: Op, place: Place) {
    place == InExpr || (place == InTerm && !IsSum(op))
  }

  /** The tree with parentheses only where precedence and left associativity require them. */
  function Minimal(a: Ast, place: Place): Tree {
    match a
    case Lit(text) => Num(text)
    case Minus(e) => Neg(Minimal(e, InFactor))
    case Plus(e) => Pos(Minimal(e, InFactor))
    case Arith(op, l, r) =>
      var t := if IsSum(op) then Bin(op, Minimal(l, InExpr), Minimal(r, InTerm))
               else Bin(op, Minimal(l, InTerm), Minimal(r, InFactor));
      if Fits(op, place) then t else Paren(t)
  }

  /** Parentheses do not change the value. */
  lemma {:induction false} MinimalValue<N>(a: Ast, place: Place, ops: Numbers<N>)
    ensures Value(Minimal(a, place), ops) == AstValue(a, ops)
    decreases a
  {
    match a
    case Lit(_) =>
    case Minus(e) => MinimalValue(e, InFactor, ops);
    case Plus(e) => MinimalValue(e, InFactor, ops);
    case Arith(op, l, r) =>
      MinimalValue(l, if IsSum(op) then InExpr else InTerm, ops);
      MinimalValue(r, if IsSum(op) then InTerm else InFactor, ops);
  }

  /** A tree laid out as text: white space of any length before each token. */
  datatype Layout =
    | NumAt(pad: string, text: string)
    | SignAt(pad: string, minus: bool, e: Layout)
    | ParenAt(pad: string, e: Layout, close: string)
    | BinAt(l: Layout, pad: string, op: Op, r: Layout)

  predicate Blank(s: string) {
    forall c <- s :: IsSpace(c)
  }

  predicate Padded(y: Layout) {
    match y
    case NumAt(pad, text) => Blank(pad) && IsNumeral(text)
    case SignAt(pad, _, e) => Blank(pad) && Padded(e)
    case ParenAt(pad, e, close) => Blank(pad) && Blank(close) && Padded(e)
    case BinAt(l, pad, _, r) => Blank(pad) && Padded(l) && Padded(r)
  }

  function Strip(y: Layout): Tree {
    match y
    case NumAt(_, text) => Num(text)
    case SignAt(_, minus, e) => if minus then Neg(Strip(e)) else Pos(Strip(e))
    case ParenAt(_, e, _) => Paren(Strip(e))
    case BinAt(l, _, op, r) => Bin(op, Strip(l), Strip(r))
  }

  function Text(y: Layout): string {
    match y
    case NumAt(pad, text) => pad + text
    case SignAt(pad, minus, e) => pad + (if minus then "-" else "+") + Text(e)
    case ParenAt(pad, e, close) => pad + "(" + Text(e) + close + ")"
    case BinAt(l, pad, op, r) => Text(l) + pad + [OpChar(op)] + Text(r)
  }

  /** The tree needs no parentheses where it stands. */
  predicate Placed(t: Tree, place: Place) {
    match t
    case Num(_) => true
    case Neg(e) => Placed(e, InFactor)
    case Pos(e) => Placed(e, InFactor)
    case Paren(e) => Placed(e, InExpr)
    case Bin(op, l, r) =>
      Fits(op, place) && Placed(l, if IsSum(op) then InExpr else InTerm) && Placed(r, if IsSum(op) then InTerm else InFactor)
  }

  lemma {:induction false} MinimalPlaced(a: Ast, place: Place)
    ensures Placed(Minimal(a, place), place)
    decreases a
  {
    match a
    case Lit(_) =>
    case Minus(e) => MinimalPlaced(e, InFactor);
    case Plus(e) => MinimalPlaced(e, InFactor);
    case Arith(op, l, r) =>
      MinimalPlaced(l, if IsSum(op) then InExpr else InTerm);
      MinimalPlaced(r, if IsSum(op) then InTerm else InFactor);
  }

  /** The text u stands in s from position i to position j. */
  ghost predicate Occurs(s: string, i: nat, u: string, j: nat) {
    i + |u| == j <= |s| && s[i..j] == u
  }

  lemma OccursSplit(s: string, i: nat, u: string, v: string, j: nat)
    requires Occurs(s, i, u + v, j)
    ensures Occurs(s, i, u, i + |u|) && Occurs(s, i + |u|, v, j)
  {
    assert s[i..i+|u|] == s[i..j][..|u|] && s[i+|u|..j] == s[i..j][|u|..];
  }

  lemma {:induction false} SkipPad(s: string, i: nat, pad: string, k: nat)
    requires Occurs(s, i, pad, k) && Blank(pad) && (k < |s| ==> !IsSpace(s[k]))
    ensures SkipSpace(s, i) == k
    decreases |pad|
  {
    if pad != "" {
      assert s[i] == s[i..k][0] == pad[0];
      assert s[i+1..k] == s[i..k][1..] == pad[1..];
      SkipPad(s, i + 1, pad[1..], k);
    }
  }

  ghost predicate DerivesAt(t: Tree, place: Place, s: string, i: nat, j: nat) {
    match place
    case InExpr => DerivesExpr(t, s, i, j)
    case InTerm => DerivesTerm(t, s, i, j)
    case InFactor => DerivesFactor(t, s, i, j)
  }

  lemma Lift(t: Tree, place: Place, s: string, i: nat, j: nat)
    requires !t.Bin? && DerivesFactor(t, s, i, j)
    ensures i < j && DerivesAt(t, place, s, i, j)
  {
  }

  /** Every layout of a tree that fits its place is derived from that place. */
  lemma {:induction false} LayoutDerives(y: Layout, place: Place, s: string, i: nat, j: nat)
    requires Padded(y) && Placed(Strip(y), place) && Occurs(s, i, Text(y), j)
    ensures i < j && DerivesAt(Strip(y), place, s, i, j)
    decreases y, 1
  {
    match y
    case NumAt(pad, text) =>
      NumDerives(pad, text, s, i, j);
      Lift(Num(text), place, s, i, j);
    case SignAt(_, _, _) => SignLayout(y, place, s, i, j);
    case ParenAt(_, _, _) => ParenLayout(y, place, s, i, j);
    case BinAt(_, _, _, _) => BinLayout(y, place, s, i, j);
  }

  lemma {:induction false} SignLayout(y: Layout, place: Place, s: string, i: nat, j: nat)
    requires y.SignAt? && Padded(y) && Placed(Strip(y), place) && Occurs(s, i, Text(y), j)
    ensures i < j && DerivesAt(Strip(y), place, s, i, j)
    decreases y, 0
  {
    SignOpens(y.pad, y.minus, Text(y.e), s, i, j);
    LayoutDerives(y.e, InFactor, s, i + |y.pad| + 1, j);
    SignDerives(y.minus, Strip(y.e), place, s, i, j);
  }

  lemma {:induction false} ParenLayout(y: Layout, place: Place, s: string, i: nat, j: nat)
    requires y.ParenAt? && Padded(y) && Placed(Strip(y), place) && Occurs(s, i, Text(y), j)
    ensures i < j && DerivesAt(Strip(y), place, s, i, j)
    decreases y, 0
  {
    ParenOpens(y.pad, Text(y.e), y.close, s, i, j);
    var k := i + |y.pad|;
    LayoutDerives(y.e, InExpr, s, k + 1, k + 1 + |Text(y.e)|);
    ParenDerives(Strip(y.e), place, s, i, k + 1 + |Text(y.e)|, j);
  }

  lemma {:induction false} BinLayout(y: Layout, place: Place, s: string, i: nat, j: nat)
    requires y.BinAt? && Padded(y) && Placed(Strip(y), place) && Occurs(s, i, Text(y), j)
    ensures i < j && DerivesAt(Strip(y), place, s, i, j)
    decreases y, 0
  {
    var k := i + |Text(y.l)|;
    OpOccurs(Text(y.l), y.pad, y.op, Text(y.r), s, i, j);
    LayoutDerives(y.l, if IsSum(y.op) then InExpr else InTerm, s, i, k);
    LayoutDerives(y.r, if IsSum(y.op) then InTerm else InFactor, s, k + |y.pad| + 1, j);
    BinDerives(y.op, Strip(y.l), Strip(y.r), place, s, i, k, j);
  }

  lemma SignDerives(minus: bool, e: Tree, place: Place, s: string, i: nat, j: nat)
    requires i <= |s| && j <= |s| && SkipSpace(s, i) < j && s[SkipSpace(s, i)] == (if minus then '-' else '+')
    requires DerivesFactor(e, s, SkipSpace(s, i) + 1, j)
    ensures i < j && DerivesAt(if minus then Neg(e) else Pos(e), place, s, i, j)
  {
    Lift(if minus then Neg(e) else Pos(e), place, s, i, j);
  }

  lemma ParenDerives(e: Tree, place: Place, s: string, i: nat, m: nat, j: nat)
    requires i <= |s| && 0 < j <= |s| && SkipSpace(s, i) < j && s[SkipSpace(s, i)] == '(' && s[j-1] == ')'
    requires m <= |s| && DerivesExpr(e, s, SkipSpace(s, i) + 1, m) && SkipSpace(s, m) == j - 1
    ensures i < j && DerivesAt(Paren(e), place, s, i, j)
  {
    Lift(Paren(e), place, s, i, j);
  }

  lemma BinDerives(op: Op, l: Tree, r: Tree, place: Place, s: string, i: nat, k: nat, j: nat)
    requires Fits(op, place) && OpAfter(s, k, op, j)
    requires DerivesAt(l, if IsSum(op) then InExpr else InTerm, s, i, k)
    requires DerivesAt(r, if IsSum(op) then InTerm else InFactor, s, SkipSpace(s, k) + 1, j)
    ensures DerivesAt(Bin(op, l, r), place, s, i, j)
  {
    if IsSum(op) {
      BinExpr(op, l, r, s, i, k, j);
    } else {
      BinTerm(op, l, r, s, i, k, j);
    }
  }

  lemma SignOpens(pad: string, minus: bool, u: string, s: string, i: nat, j: nat)
    requires Blank(pad) && Occurs(s, i, pad + (if minus then "-" else "+") + u, j)
    ensures var k := i + |pad|;
            k < j && SkipSpace(s, i) == k && s[k] == (if minus then '-' else '+') && Occurs(s, k + 1, u, j)
  {
    var sign := if minus then "-" else "+";
    assert pad + sign + u == pad + (sign + u);
    OccursSplit(s, i, pad, sign + u, j);
    var k := i + |pad|;
    OccursSplit(s, k, sign, u, j);
    assert s[k] == s[k..k+1][0] == sign[0];
    SkipPad(s, i, pad, k);
  }

  lemma NumDerives(pad: string, text: string, s: string, i: nat, j: nat)
    requires Blank(pad) && IsNumeral(text) && Occurs(s, i, pad + text, j)
    ensures i < j && DerivesFactor(Num(text), s, i, j)
  {
    OccursSplit(s, i, pad, text, j);
    var k := i + |pad|;
    assert s[k..j] == text;
    forall n | k <= n < j ensures IsNumeric(s[n]) {
      assert s[n] == s[k..j][n-k] && text[n-k] in text;
    }
    SkipPad(s, i, pad, k);
  }

  lemma ParenParts(pad: string, u: string, close: string, s: string, i: nat, j: nat)
    requires Occurs(s, i, pad + "(" + u + close + ")", j)
    ensures var k := i + |pad|; var m := k + 1 + |u|;
            && Occurs(s, i, pad, k) && Occurs(s, k, "(", k + 1) && Occurs(s, k + 1, u, m)
            && j > m && Occurs(s, m, close, j - 1) && Occurs(s, j - 1, ")", j)
  {
    assert pad + "(" + u + close + ")" == pad + ("(" + (u + (close + ")")));
    OccursSplit(s, i, pad, "(" + (u + (close + ")")), j);
    var k := i + |pad|;
    OccursSplit(s, k, "(", u + (close + ")"), j);
    OccursSplit(s, k + 1, u, close + ")", j);
    OccursSplit(s, k + 1 + |u|, close, ")", j);
  }

  lemma ParenOpens(pad: string, u: string, close: string, s: string, i: nat, j: nat)
    requires Blank(pad) && Blank(close) && Occurs(s, i, pad + "(" + u + close + ")", j)
    ensures var k := i + |pad|;
            && j - 1 >= k + 1 + |u| && SkipSpace(s, i) == k && s[k] == '(' && s[j-1] == ')'
            && Occurs(s, k + 1, u, k + 1 + |u|) && SkipSpace(s, k + 1 + |u|) == j - 1
  {
    ParenParts(pad, u, close, s, i, j);
    var k := i + |pad|;
    assert s[k] == s[k..k+1][0] && s[j-1] == s[j-1..j][0];
    SkipPad(s, i, pad, k);
    SkipPad(s, k + 1 + |u|, close, j - 1);
  }

  lemma OpOccurs(u: string, pad: string, op: Op, v: string, s: string, i: nat, j: nat)
    requires Blank(pad) && Occurs(s, i, u + pad + [OpChar(op)] + v, j)
    ensures var k := i + |u|;
            Occurs(s, i, u, k) && Occurs(s, k + |pad| + 1, v, j) && SkipSpace(s, k) == k + |pad| && OpAfter(s, k, op, j)
  {
    assert u + pad + [OpChar(op)] + v == u + (pad + ([OpChar(op)] + v));
    OccursSplit(s, i, u, pad + ([OpChar(op)] + v), j);
    var k := i + |u|;
    OccursSplit(s, k, pad, [OpChar(op)] + v, j);
    var m := k + |pad|;
    OccursSplit(s, m, [OpChar(op)], v, j);
    assert s[m] == s[m..m+1][0];
    SkipPad(s, k, pad, m);
  }

  /** Whatever the white space, the text of a minimally parenthesised expression evaluates to the
      expression's value; it fails exactly when the expression has none. */
  lemma PrintThenEval<N>(a: Ast, y: Layout, end: string, ops: Numbers<N>)
    requires Padded(y) && Strip(y) == Minimal(a, InExpr) && Blank(end)
    ensures Evaluated(Text(y) + end, ops) == AstValue(a, ops)
  {
    var s, j := Text(y) + end, |Text(y)|;
    MinimalPlaced(a, InExpr);
    assert Occurs(s, 0, Text(y), j) && Occurs(s, j, end, |s|);
    LayoutDerives(y, InExpr, s, 0, j);
    SkipPad(s, j, end, |s|);
    DerivedIsParsed(Minimal(a, InExpr), s);
    MinimalValue(a, InExpr, ops);
  }

  /** Such a text exists for every printable expression. */
  lemma {:induction false} PrintableHasLayout(a: Ast, place: Place) returns (y: Layout)
    requires Printable(a)
    ensures Padded(y) && Strip(y) == Minimal(a, place)
    decreases a
  {
    match a
    case Lit(text) => y := NumAt("", text);
    case Minus(e) => var b := PrintableHasLayout(e, InFactor); y := SignAt("", true, b);
    case Plus(e) => var b := PrintableHasLayout(e, InFactor); y := SignAt("", false, b);
    case Arith(op, l, r) =>
      var b := PrintableHasLayout(l, if IsSum(op) then InExpr else InTerm);
      var c := PrintableHasLayout(r, if IsSum(op) then InTerm else InFactor);
      y := BinAt(b, "", op, c);
      if !Fits(op, place) { y := ParenAt("", y, ""); }
  }

  // --------------------------------------------------------------------- on texts

  /** Digits and points, at least one. */
  predicate Figures(x: string) {
    x != "" && forall c <- x :: c == '.' || '0' <= c <= '9'
  }

  lemma TextEval<N>(a: Ast, y: Layout, ops: Numbers<N>)
    requires Padded(y) && Strip(y) == Minimal(a, InExpr)
    ensures Evaluated(Text(y), ops) == AstValue(a, ops)
  {
    PrintThenEval(a, y, "", ops);
    assert Text(y) + "" == Text(y);
  }

  /** A single number, plain or under a sign. */
  lemma EvalNumber<N>(x: string, ops: Numbers<N>)
    requires Figures(x)
    ensures Evaluated(x, ops) == ops.parse(x) && Evaluated("+" + x, ops) == ops.parse(x)
    ensures Evaluated("-" + x, ops) == if ops.parse(x).None? then None else Some(ops.neg(ops.parse(x).value))
  {
    var n := NumAt("", x);
    assert Text(n) == x && Text(SignAt("", true, n)) == "-" + x && Text(SignAt("", false, n)) == "+" + x;
    TextEval(Lit(x), n, ops);
    TextEval(Minus(Lit(x)), SignAt("", true, n), ops);
    TextEval(Plus(Lit(x)), SignAt("", false, n), ops);
  }

  /** A text that is laid out from an expression where it stands, and that expression's value. */
  ghost predicate Denotes<N>(y: Layout, a: Ast, place: Place, text: string, ops: Numbers<N>, v: Option<N>) {
    Padded(y) && Strip(y) == Minimal(a, place) && Text(y) == text && AstValue(a, ops) == v
  }

  lemma NumberDenotes<N>(pad: string, x: string, place: Place, ops: Numbers<N>)
    requires Blank(pad) && Figures(x)
    ensures Denotes(NumAt(pad, x), Lit(x), place, pad + x, ops, ops.parse(x))
  {
  }

  lemma OperatorDenotes<N>(l: Layout, p: Ast, u: string, a: N, pad: string, op: Op, r: Layout, q: Ast, v: string, b: N, place: Place, ops: Numbers<N>)
    requires Denotes(l, p, if IsSum(op) then InExpr else InTerm, u, ops, Some(a))
    requires Denotes(r, q, if IsSum(op) then InTerm else InFactor, v, ops, Some(b))
    requires Blank(pad) && Fits(op, place)
    ensures Denotes(BinAt(l, pad, op, r), Arith(op, p, q), place, u + pad + [OpChar(op)] + v, ops,
                    if op == Div && ops.isZero(b) then None else Some(ops.apply(op, a, b)))
  {
  }

  lemma GroupDenotes<N>(pad: string, y: Layout, op: Op, l: Ast, r: Ast, close: string, place: Place, u: string, ops: Numbers<N>, v: Option<N>)
    requires Denotes(y, Arith(op, l, r), InExpr, u, ops, v) && !Fits(op, place) && Blank(pad) && Blank(close)
    ensures Denotes(ParenAt(pad, y, close), Arith(op, l, r), place, pad + "(" + u + close + ")", ops, v)
  {
  }

  lemma DenotedValue<N>(y: Layout, a: Ast, text: string, end: string, ops: Numbers<N>, v: Option<N>)
    requires Denotes(y, a, InExpr, text, ops, v) && Blank(end)
    ensures Evaluated(text + end, ops) == v
  {
    PrintThenEval(a, y, end, ops);
  }

  /** Two of them around an operator with nothing between. */
  lemma TightDenotes<N>(l: Layout, p: Ast, u: string, a: N, op: Op, o: string, r: Layout, q: Ast, v: string, b: N, place: Place, ops: Numbers<N>)
    requires Denotes(l, p, if IsSum(op) then InExpr else InTerm, u, ops, Some(a))
    requires Denotes(r, q, if IsSum(op) then InTerm else InFactor, v, ops, Some(b))
    requires Fits(op, place) && o == [OpChar(op)]
    ensures Denotes(BinAt(l, "", op, r), Arith(op, p, q), place, u + o + v, ops,
                    if op == Div && ops.isZero(b) then None else Some(ops.apply(op, a, b)))
  {
    OperatorDenotes(l, p, u, a, "", op, r, q, v, b, place, ops);
    assert u + "" == u;
  }

  lemma FiguresDenote<N>(x: string, place: Place, ops: Numbers<N>)
    requires Figures(x)
    ensures Denotes(NumAt("", x), Lit(x), place, x, ops, ops.parse(x))
  {
    NumberDenotes("", x, place, ops);
    assert "" + x == x;
  }

  lemma TightValue<N>(y: Layout, a: Ast, text: string, ops: Numbers<N>, v: Option<N>)
    requires Denotes(y, a, InExpr, text, ops, v)
    ensures Evaluated(text, ops) == v
  {
    DenotedValue(y, a, text, "", ops, v);
    assert text + "" == text;
  }

  lemma EvalOne<N>(x: string, op: Op, o: string, y: string, ops: Numbers<N>, a: N, b: N)
    requires Figures(x) && Figures(y) && ops.parse(x) == Some(a) && ops.parse(y) == Some(b) && o == [OpChar(op)]
    ensures Evaluated(x + o + y, ops) == if op == Div && ops.isZero(b) then None else Some(ops.apply(op, a, b))
  {
    FiguresDenote(x, if IsSum(op) then InExpr else InTerm, ops);
    FiguresDenote(y, if IsSum(op) then InTerm else InFactor, ops);
    TightDenotes(NumAt("", x), Lit(x), x, a, op, o, NumAt("", y), Lit(y), y, b, InExpr, ops);
    TightValue(BinAt(NumAt("", x), "", op, NumAt("", y)), Arith(op, Lit(x), Lit(y)), x + o + y, ops,
               if op == Div && ops.isZero(b) then None else Some(ops.apply(op, a, b)));
  }

  /** Two numbers around an operator: the left one is the left operand, and only a zero divisor fails. */
  lemma EvalOperator<N>(x: string, y: string, ops: Numbers<N>, a: N, b: N)
    requires Figures(x) && Figures(y) && ops.parse(x) == Some(a) && ops.parse(y) == Some(b)
    ensures Evaluated(x + "+" + y, ops) == Some(ops.apply(Add, a, b))
    ensures Evaluated(x + "-" + y, ops) == Some(ops.apply(Sub, a, b))
    ensures Evaluated(x + "*" + y, ops) == Some(ops.apply(Mul, a, b))
    ensures Evaluated(x + "/" + y, ops) == if ops.isZero(b) then None else Some(ops.apply(Div, a, b))
  {
    EvalOne(x, Add, "+", y, ops, a, b);
    EvalOne(x, Sub, "-", y, ops, a, b);
    EvalOne(x, Mul, "*", y, ops, a, b);
    EvalOne(x, Div, "/", y, ops, a, b);
  }

  /** Differences are taken from the left. */
  lemma EvalChain<N>(x: string, y: string, z: string, ops: Numbers<N>, a: N, b: N, c: N)
    requires Figures(x) && Figures(y) && Figures(z)
    requires ops.parse(x) == Some(a) && ops.parse(y) == Some(b) && ops.parse(z) == Some(c)
    ensures Evaluated(x + "-" + y + "-" + z, ops) == Some(ops.apply(Sub, ops.apply(Sub, a, b), c))
  {
    var o := "-";
    FiguresDenote(x, InExpr, ops);
    FiguresDenote(y, InTerm, ops);
    FiguresDenote(z, InTerm, ops);
    var left, diff := BinAt(NumAt("", x), "", Sub, NumAt("", y)), Arith(Sub, Lit(x), Lit(y));
    TightDenotes(NumAt("", x), Lit(x), x, a, Sub, o, NumAt("", y), Lit(y), y, b, InExpr, ops);
    TightDenotes(left, diff, x + o + y, ops.apply(Sub, a, b), Sub, o, NumAt("", z), Lit(z), z, c, InExpr, ops);
    TightValue(BinAt(left, "", Sub, NumAt("", z)), Arith(Sub, diff, Lit(z)), x + o + y + o + z, ops,
               Some(ops.apply(Sub, ops.apply(Sub, a, b), c)));
  }

  lemma Spliced(x: string, o: string, y: string, o': string, z: string)
    ensures x + o + (y + o' + z) == x + o + y + o' + z
  {
  }

  /** Products come before differences. */
  lemma EvalPrecedence<N>(x: string, y: string, z: string, ops: Numbers<N>, a: N, b: N, c: N)
    requires Figures(x) && Figures(y) && Figures(z)
    requires ops.parse(x) == Some(a) && ops.parse(y) == Some(b) && ops.parse(z) == Some(c)
    ensures Evaluated(x + "-" + y + "*" + z, ops) == Some(ops.apply(Sub, a, ops.apply(Mul, b, c)))
  {
    var o, o' := "-", "*";
    FiguresDenote(x, InExpr, ops);
    FiguresDenote(y, InTerm, ops);
    FiguresDenote(z, InFactor, ops);
    var right, product := BinAt(NumAt("", y), "", Mul, NumAt("", z)), Arith(Mul, Lit(y), Lit(z));
    TightDenotes(NumAt("", y), Lit(y), y, b, Mul, o', NumAt("", z), Lit(z), z, c, InTerm, ops);
    TightDenotes(NumAt("", x), Lit(x), x, a, Sub, o, right, product, y + o' + z, ops.apply(Mul, b, c), InExpr, ops);
    Spliced(x, o, y, o', z);
    TightValue(BinAt(NumAt("", x), "", Sub, right), Arith(Sub, Lit(x), product), x + o + y + o' + z, ops,
               Some(ops.apply(Sub, a, ops.apply(Mul, b, c))));
  }

  lemma GroupText(x: string, y: string, z: string)
    ensures x + " " + "-" + (" " + "(" + (y + "-" + z) + " " + ")") + "\n" == x + " - (" + y + "-" + z + " )\n"
  {
  }

  /** Parentheses come first, and white space does not matter. */
  lemma EvalGroup<N>(x: string, y: string, z: string, ops: Numbers<N>, a: N, b: N, c: N)
    requires Figures(x) && Figures(y) && Figures(z)
    requires ops.parse(x) == Some(a) && ops.parse(y) == Some(b) && ops.parse(z) == Some(c)
    ensures Evaluated(x + " - (" + y + "-" + z + " )\n", ops) == Some(ops.apply(Sub, a, ops.apply(Sub, b, c)))
  {
    var o, sp, v := "-", " ", ops.apply(Sub, b, c);
    FiguresDenote(x, InExpr, ops);
    FiguresDenote(y, InExpr, ops);
    FiguresDenote(z, InTerm, ops);
    var inner, diff := BinAt(NumAt("", y), "", Sub, NumAt("", z)), Arith(Sub, Lit(y), Lit(z));
    TightDenotes(NumAt("", y), Lit(y), y, b, Sub, o, NumAt("", z), Lit(z), z, c, InExpr, ops);
    GroupDenotes(sp, inner, Sub, Lit(y), Lit(z), sp, InTerm, y + o + z, ops, Some(v));
    var group, t := ParenAt(sp, inner, sp), sp + "(" + (y + o + z) + sp + ")";
    OperatorDenotes(NumAt("", x), Lit(x), x, a, sp, Sub, group, diff, t, v, InExpr, ops);
    DenotedValue(BinAt(NumAt("", x), sp, Sub, group), Arith(Sub, Lit(x), diff), x + sp + [OpChar(Sub)] + t, "\n", ops, Some(ops.apply(Sub, a, v)));
    GroupText(x, y, z);
  }
}
