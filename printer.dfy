/** Printing expressions back to tokens, with the fewest parentheses the precedence
    levels of src/parser/Parser.ts need. Reading a printed expression back with the
    parser gives the same tree: this pins down the parser's precedence levels and the
    left-to-right grouping of each level's operator loop. */
module Printing {

  import opened Base
  import opened Tokens
  import opened Numerals
  import opened Ast
  import opened Grammar

  /** How tightly an expression binds: 1 logical, 2 comparison, 3 additive,
      4 multiplicative, 5 a factor. */
  function Prec(e: Expr): (p: nat)
    ensures 1 <= p <= 5
  {
    match e
    case LogicalNode(_, _, _) => 1
    case ConditionalNode(_, _, _) => 2
    case ArithmeticNode(op, _, _) => if op == Add || op == Sub then 3 else 4
    case _ => 5
  }

  /** The operator token kind of a binary node. */
  function OperatorKind(e: Expr): TokenType
    requires Prec(e) < 5
  {
    match e
    case LogicalNode(op, _, _) =>
      (match op
       case AndOp => And
       case OrOp => Or)
    case ConditionalNode(op, _, _) =>
      (match op
       case Eq => Equal
       case Neq => NotEqual
       case Gt => GreaterThan
       case Lt => LessThan
       case Gte => GreaterThanOrEqual
       case Lte => LessThanOrEqual)
    case ArithmeticNode(op, _, _) =>
      (match op
       case Add => Plus
       case Sub => Minus
       case Mul => Multiply
       case Div => Divide)
  }

  /** The operator token of a node is an operator of the node's level, ends every tighter
      level, and the parser combines the operands around it back into the node. */
  lemma OperatorKindParsesBack(e: Expr, level: nat)
    requires Prec(e) == level < 5
    ensures IsOperator(level, OperatorKind(e)) && Ends(level + 1, OperatorKind(e))
    ensures Combine(OperatorKind(e), e.left, e.right) == e
  {
    if e.LogicalNode? {
      LogicalKind(e);
    } else if e.ConditionalNode? {
      ConditionalKind(e);
    } else {
      ArithmeticKind(e, level);
    }
  }

  lemma LogicalKind(e: Expr)
    requires e.LogicalNode?
    ensures IsOperator(1, OperatorKind(e)) && Ends(2, OperatorKind(e))
    ensures Combine(OperatorKind(e), e.left, e.right) == e
  {
    var k := if e.lop == AndOp then And else Or;
    assert OperatorKind(e) == k;
  }

  lemma ConditionalKind(e: Expr)
    requires e.ConditionalNode?
    ensures IsOperator(2, OperatorKind(e)) && Ends(3, OperatorKind(e))
    ensures Combine(OperatorKind(e), e.left, e.right) == e
  {
    var k :=
      if e.cop == Eq then Equal
      else if e.cop == Neq then NotEqual
      else if e.cop == Gt then GreaterThan
      else if e.cop == Lt then LessThan
      else if e.cop == Gte then GreaterThanOrEqual
      else LessThanOrEqual;
    assert OperatorKind(e) == k;
  }

  lemma ArithmeticKind(e: Expr, level: nat)
    requires e.ArithmeticNode? && Prec(e) == level
    ensures IsOperator(level, OperatorKind(e)) && Ends(level + 1, OperatorKind(e))
    ensures Combine(OperatorKind(e), e.left, e.right) == e
  {
    var k :=
      if e.aop == Add then Plus
      else if e.aop == Sub then Minus
      else if e.aop == Mul then Multiply
      else Divide;
    assert OperatorKind(e) == k;
  }

  /** The table text of an operator or punctuation kind. */
  function Spelling(k: TokenType): string {
    match k
    case And => "&&"
    case Or => "||"
    case Equal => "=="
    case NotEqual => "!="
    case GreaterThan => ">"
    case LessThan => "<"
    case GreaterThanOrEqual => ">="
    case LessThanOrEqual => "<="
    case Plus => "+"
    case Minus => "-"
    case Multiply => "*"
    case Divide => "/"
    case OpenParen => "("
    case CloseParen => ")"
    case Comma => ","
    case Semicolon => ";"
    case Colon => ":"
    case Assignment => "="
    case OpenBrace => "{"
    case CloseBrace => "}"
    case DoubleColon => "::"
    case Arrow => "=>"
    case If => "if"
    case Else => "else"
    case While => "while"
    case Function => "fn"
    case Return => "rn"
    case Print => "print"
    case _ => ""
  }

  function Punct(k: TokenType, line: nat): Token {
    Token(k, Spelling(k), line)
  }

  /** The expressions the parser can build from tokens on one line: no `None`
      literal, no negative number literal, every call on that line. */
  predicate Printable(e: Expr, line: nat) {
    match e
    case Lit(lit) => !lit.NoneNode? && (lit.NumberNode? ==> lit.n >= 0)
    case IdentifierNode(_) => true
    case ArithmeticNode(_, l, r) => Printable(l, line) && Printable(r, line)
    case NegationNode(x) => Printable(x, line)
    case ConditionalNode(_, l, r) => Printable(l, line) && Printable(r, line)
    case LogicalNode(_, l, r) => Printable(l, line) && Printable(r, line)
    case FunctionCallNode(_, args, callLine) =>
      callLine == line && forall i :: 0 <= i < |args| ==> Printable(args[i], line)
  }

  /** The tokens of `e` where the parser expects an expression of the given level:
      parenthesised exactly when `e` binds more loosely than that level. */
  function Printed(e: Expr, level: nat, line: nat): (ts: seq<Token>)
    requires 1 <= level <= 5
    ensures |ts| > 0
    decreases e, 2
  {
    if Prec(e) < level then [Punct(OpenParen, line)] + Bare(e, line) + [Punct(CloseParen, line)]
    else Bare(e, line)
  }

  /** The tokens of `e` without surrounding parentheses. A binary node's left operand
      may share its level, its right operand must bind more tightly. */
  function Bare(e: Expr, line: nat): (ts: seq<Token>)
    ensures |ts| > 0
    decreases e, 1
  {
    match e
    case Lit(StringNode(s)) => [Token(String, "\"" + s + "\"", line)]
    case Lit(NumberNode(n)) => [Token(Number, IntToString(n), line)]
    case Lit(BooleanNode(b)) => [Token(Boolean, if b then "true" else "false", line)]
    case Lit(NoneNode) => [Token(Identifier, "None", line)]
    case IdentifierNode(name) => [Token(Identifier, name, line)]
    case NegationNode(x) => [Punct(Minus, line)] + Printed(x, 5, line)
    case FunctionCallNode(name, args, _) =>
      [Token(Identifier, name, line), Punct(OpenParen, line)] + ArgumentList(e, line) + [Punct(CloseParen, line)]
    case _ =>
      Printed(e.left, Prec(e), line) + [Punct(OperatorKind(e), line)] + Printed(e.right, Prec(e) + 1, line)
  }

  /** A call's arguments, separated by commas. */
  function ArgumentList(e: Expr, line: nat): seq<Token>
    requires e.FunctionCallNode?
    decreases e, 0, |e.args| + 1
  {
    if e.args == [] then [] else Printed(e.args[0], 1, line) + CommaArguments(e, 1, line)
  }

  /** The arguments from index `i` on, each preceded by a comma. */
  function CommaArguments(e: Expr, i: nat, line: nat): seq<Token>
    requires e.FunctionCallNode?
    decreases e, 0, |e.args| - i
  {
    if i >= |e.args| then [] else [Punct(Comma, line)] + Printed(e.args[i], 1, line) + CommaArguments(e, i + 1, line)
  }

  /** A token of kind `k` ends every operator loop from `level` on and is not an
      opening parenthesis: after a printed expression, it stops the parser. */
  predicate Ends(level: nat, k: TokenType) {
    k != OpenParen
    && (level <= 1 ==> !IsOperator(1, k))
    && (level <= 2 ==> !IsOperator(2, k))
    && (level <= 3 ==> !IsOperator(3, k))
    && (level <= 4 ==> !IsOperator(4, k))
  }

  /** The parser entry for a level: the level's operator loop, or `parseFactor` at 5. */
  function ParseAt(level: nat, ts: seq<Token>, pos: nat): Parsed<Expr>
    requires 1 <= level <= 5 && pos <= |ts|
  {
    if level == 5 then Factor(ts, pos) else Binary(level, ts, pos)
  }

  /** A printed expression never starts with a token that closes an argument list. */
  lemma {:induction false} FirstToken(e: Expr, level: nat, line: nat)
    requires 1 <= level <= 5
    ensures Printed(e, level, line)[0].kind in {String, Number, Boolean, Identifier, Minus, OpenParen}
    decreases e
  {
    if Prec(e) >= level && Prec(e) < 5 {
      FirstToken(e.left, Prec(e), line);
    }
  }

  /** The tokens from `p` on begin with `toks`. */
  predicate Occupies(ts: seq<Token>, p: nat, toks: seq<Token>)
    decreases |toks|
  {
    p + |toks| <= |ts| && (|toks| > 0 ==> ts[p] == toks[0] && Occupies(ts, p + 1, toks[1..]))
  }

  lemma {:induction false} OccupiesSlice(ts: seq<Token>, p: nat, toks: seq<Token>)
    ensures Occupies(ts, p, toks) <==> p + |toks| <= |ts| && ts[p..p + |toks|] == toks
    decreases |toks|
  {
    if |toks| > 0 && p + |toks| <= |ts| {
      OccupiesSlice(ts, p + 1, toks[1..]);
      if ts[p..p + |toks|] == toks {
        assert ts[p + 1..p + |toks|] == toks[1..];
      }
      if ts[p] == toks[0] && ts[p + 1..p + |toks|] == toks[1..] {
        assert ts[p..p + |toks|] == [toks[0]] + toks[1..];
      }
    }
  }

  /** Splits the tokens a concatenation occupies at the boundary of its two parts. */
  lemma SliceParts(ts: seq<Token>, p: nat, a: seq<Token>, b: seq<Token>)
    requires Occupies(ts, p, a + b)
    ensures Occupies(ts, p, a) && Occupies(ts, p + |a|, b)
    ensures |a| > 0 ==> ts[p] == a[0]
    ensures |b| > 0 ==> ts[p + |a|] == b[0]
  {
    OccupiesSlice(ts, p, a + b);
    OccupiesSlice(ts, p, a);
    OccupiesSlice(ts, p + |a|, b);
    assert ts[p..p + |a|] == (a + b)[..|a|];
    assert ts[p + |a|..p + |a| + |b|] == (a + b)[|a|..];
    if |a| > 0 {
      assert ts[p] == (a + b)[0];
    }
    if |b| > 0 {
      assert ts[p + |a|] == (a + b)[|a|];
    }
  }

  /** Ranks for the mutual induction: an expression that needs parentheses at a level
      ranks above every level at which it does not. */
  function Bonus(e: Expr, level: nat): nat {
    if Prec(e) < level then 30 else 0
  }

  // The facts the proof passes between its steps, each under a name of its own so that a
  // step's precondition is literally a fact its caller holds.

  /** `e`, printed for `level` on `line`, occupies the tokens from `p` to `q`, and a token
      follows it. */
  predicate Laid(e: Expr, level: nat, line: nat, ts: seq<Token>, p: nat, q: nat) {
    1 <= level <= 5 && line != 0 && Printable(e, line)
    && q == p + |Printed(e, level, line)| && q < |ts| && Occupies(ts, p, Printed(e, level, line))
  }

  /** The token that ends an argument list: the closing parenthesis of a call, or the
      semicolon of a `print`. */
  predicate Closes(t: Token, line: nat) {
    t == Punct(CloseParen, line) || t == Punct(Semicolon, line)
  }

  /** The arguments of call `e` from index `i` on, each after a comma, occupy the tokens
      from `p` to the token at `close` that ends the list. */
  predicate CommaLaid(e: Expr, i: nat, line: nat, ts: seq<Token>, p: nat, close: nat) {
    e.FunctionCallNode? && line != 0 && Printable(e, line) && 1 <= i <= |e.args|
    && close == p + |CommaArguments(e, i, line)| && close < |ts|
    && Occupies(ts, p, CommaArguments(e, i, line)) && Closes(ts[close], line)
  }

  /** The argument list of call `e` sits between parentheses at `p` and `close`. */
  predicate CallLaid(e: Expr, line: nat, ts: seq<Token>, p: nat, close: nat) {
    e.FunctionCallNode? && line != 0 && Printable(e, line)
    && close == p + 1 + |ArgumentList(e, line)| && close < |ts|
    && ts[p] == Punct(OpenParen, line) && ts[close] == Punct(CloseParen, line)
    && Occupies(ts, p + 1, ArgumentList(e, line))
  }

  /** The parser entry of `level` reads `e` from `p` and stops at `q`. */
  predicate Reads(level: nat, ts: seq<Token>, p: nat, e: Expr, q: nat) {
    1 <= level <= 5 && p <= |ts| && ParseAt(level, ts, p) == Ok((e, q))
  }

  /** The operator loop of `level` started at `p` has folded what it read into `acc` by `m`. */
  predicate Folds(level: nat, ts: seq<Token>, p: nat, m: nat, acc: Expr) {
    1 <= level <= 4 && p <= |ts| && m <= |ts| && Binary(level, ts, p) == Tail(level, ts, m, acc)
  }

  /** Binary node `e` has its operator at `m`: the operator of the level that combines
      the node's operands back into the node. */
  predicate OperatorAt(level: nat, ts: seq<Token>, m: nat, e: Expr) {
    && (e.ArithmeticNode? || e.ConditionalNode? || e.LogicalNode?)
    && 1 <= level <= 4 && m < |ts| && IsOperator(level, ts[m].kind)
    && Combine(ts[m].kind, e.left, e.right) == e
  }

  /** `parseFunctionCall` at the opening parenthesis `p` reads call `e` and stops at `q`. */
  predicate CallReads(ts: seq<Token>, p: nat, e: Expr, q: nat) {
    e.FunctionCallNode? && At(ts, p, OpenParen) && Call(e.name, ts, p) == Ok((e, q))
  }

  /** The comma loop at `p`, having read `acc`, reads `args` and stops at `close`. */
  predicate ArgumentsRead(ts: seq<Token>, p: nat, acc: seq<Expr>, args: seq<Expr>, close: nat) {
    p <= |ts| && Arguments(ts, p, acc) == Ok((args, close))
  }

  /** Reading a printed expression: the parser entry of its level returns it and stops
      right after it, at `q`. */
  lemma {:induction false} ParsesBack(e: Expr, level: nat, line: nat, ts: seq<Token>, p: nat, q: nat)
    requires Laid(e, level, line, ts, p, q) && Ends(level, ts[q].kind)
    ensures Reads(level, ts, p, e, q)
    decreases e, Bonus(e, level) + 4 * (5 - level) + 3
  {
    if level <= 4 {
      EndsLater(level, ts[q].kind);
      Spine(e, level, line, ts, p, q);
      TailStops(level, ts, p, q, e);
    } else {
      FactorParsesBack(e, line, ts, p, q);
    }
  }

  /** Parsing a level whose printed expression ends where the tokens continue: the
      level's loop has consumed exactly the expression and folded it into one operand. */
  lemma {:induction false} Spine(e: Expr, level: nat, line: nat, ts: seq<Token>, p: nat, q: nat)
    requires Laid(e, level, line, ts, p, q) && level <= 4 && Ends(level + 1, ts[q].kind)
    ensures Folds(level, ts, p, q, e)
    decreases e, Bonus(e, level) + 4 * (5 - level) + 2
  {
    if Prec(e) != level {
      OperandSpine(e, level, line, ts, p, q);
    } else {
      OperatorSpine(e, level, line, ts, p, q);
    }
  }

  /** An expression of another level is one operand of this level's loop. */
  lemma {:induction false} OperandSpine(e: Expr, level: nat, line: nat, ts: seq<Token>, p: nat, q: nat)
    requires Laid(e, level, line, ts, p, q) && level <= 4 && Ends(level + 1, ts[q].kind)
    requires Prec(e) != level
    ensures Folds(level, ts, p, q, e)
    decreases e, Bonus(e, level) + 4 * (5 - level) + 1
  {
    OperandLayout(e, level, line, ts, p, q);
    ParsesBack(e, level + 1, line, ts, p, q);
    SingleOperand(level, ts, p, e, q);
  }

  lemma OperandLayout(e: Expr, level: nat, line: nat, ts: seq<Token>, p: nat, q: nat)
    requires Laid(e, level, line, ts, p, q) && level <= 4 && Prec(e) != level
    ensures Laid(e, level + 1, line, ts, p, q) && Bonus(e, level) == Bonus(e, level + 1)
  {
    assert Printed(e, level, line) == Printed(e, level + 1, line);
  }

  /** A node of this level: its left operand is folded first, then the operator and the
      right operand extend the fold. */
  lemma {:induction false} OperatorSpine(e: Expr, level: nat, line: nat, ts: seq<Token>, p: nat, q: nat)
    requires Laid(e, level, line, ts, p, q) && level <= 4 && Ends(level + 1, ts[q].kind)
    requires Prec(e) == level
    ensures Folds(level, ts, p, q, e)
    decreases e, Bonus(e, level) + 4 * (5 - level) + 1
  {
    var m := OperatorLayout(e, level, line, ts, p, q);
    LeftOperand(e, level, line, ts, p, m);
    RightOperand(e, level, line, ts, m, q);
    TailStep(level, ts, p, m, e, q);
  }

  /** The left operand of a printed binary node folds at the node's own level. */
  lemma {:induction false} LeftOperand(e: Expr, level: nat, line: nat, ts: seq<Token>, p: nat, m: nat)
    requires OperatorAt(level, ts, m, e) && Ends(level + 1, ts[m].kind)
    requires Laid(e.left, level, line, ts, p, m)
    ensures Folds(level, ts, p, m, e.left)
    decreases e, Bonus(e, level) + 4 * (5 - level)
  {
    Spine(e.left, level, line, ts, p, m);
  }

  /** The right operand of a printed binary node reads back one level tighter. */
  lemma {:induction false} RightOperand(e: Expr, level: nat, line: nat, ts: seq<Token>, m: nat, q: nat)
    requires OperatorAt(level, ts, m, e)
    requires Laid(e.right, level + 1, line, ts, m + 1, q) && Ends(level + 1, ts[q].kind)
    ensures Reads(level + 1, ts, m + 1, e.right, q)
    decreases e, Bonus(e, level) + 4 * (5 - level)
  {
    ParsesBack(e.right, level + 1, line, ts, m + 1, q);
  }

  /** Where the operator of a printed binary node sits, and what its parts satisfy. */
  lemma OperatorLayout(e: Expr, level: nat, line: nat, ts: seq<Token>, p: nat, q: nat) returns (m: nat)
    requires Laid(e, level, line, ts, p, q) && level <= 4 && Prec(e) == level
    ensures OperatorAt(level, ts, m, e) && m < q && Ends(level + 1, ts[m].kind)
    ensures Laid(e.left, level, line, ts, p, m) && Laid(e.right, level + 1, line, ts, m + 1, q)
  {
    OperatorTokens(e, level, line);
    var k := OperatorKind(e);
    m := OperatorSplit(ts, p, q, Printed(e.left, level, line), k, line, Printed(e.right, level + 1, line));
    LaidIntro(e.left, level, line, ts, p, m);
    LaidIntro(e.right, level + 1, line, ts, m + 1, q);
    OperatorKindParsesBack(e, level);
  }

  lemma OperatorSplit(ts: seq<Token>, p: nat, q: nat, left: seq<Token>, k: TokenType, line: nat, right: seq<Token>)
    returns (m: nat)
    requires q == p + |left + [Punct(k, line)] + right| && Occupies(ts, p, left + [Punct(k, line)] + right)
    ensures m == p + |left| && m < q && ts[m].kind == k
    ensures Occupies(ts, p, left) && q == m + 1 + |right| && Occupies(ts, m + 1, right)
  {
    m := p + |left|;
    SliceParts(ts, p, left + [Punct(k, line)], right);
    SliceParts(ts, p, left, [Punct(k, line)]);
  }

  /** A binary node prints as its left operand, its operator and its right operand. */
  lemma OperatorTokens(e: Expr, level: nat, line: nat)
    requires 1 <= level <= 4 && Printable(e, line) && Prec(e) == level
    ensures e.ArithmeticNode? || e.ConditionalNode? || e.LogicalNode?
    ensures Printable(e.left, line) && Printable(e.right, line)
    ensures Printed(e, level, line)
            == Printed(e.left, level, line) + [Punct(OperatorKind(e), line)] + Printed(e.right, level + 1, line)
  {
  }

  lemma LaidIntro(e: Expr, level: nat, line: nat, ts: seq<Token>, p: nat, q: nat)
    requires 1 <= level <= 5 && line != 0 && Printable(e, line)
    requires q == p + |Printed(e, level, line)| && q < |ts| && Occupies(ts, p, Printed(e, level, line))
    ensures Laid(e, level, line, ts, p, q)
  {
  }

  /** `parseFactor` reads back a printed factor, or a parenthesised looser expression. */
  lemma {:induction false} FactorParsesBack(e: Expr, line: nat, ts: seq<Token>, p: nat, q: nat)
    requires Laid(e, 5, line, ts, p, q) && Ends(5, ts[q].kind)
    ensures Reads(5, ts, p, e, q)
    decreases e, Bonus(e, 5) + 2
  {
    if Prec(e) < 5 {
      ParenthesisedParsesBack(e, line, ts, p, q);
    } else if e.NegationNode? {
      NegationParsesBack(e, line, ts, p, q);
    } else if e.FunctionCallNode? {
      CallFactorParsesBack(e, line, ts, p, q);
    } else {
      AtomParsesBack(e, line, ts, p, q);
    }
  }

  /** A literal or a variable is one token. */
  lemma AtomParsesBack(e: Expr, line: nat, ts: seq<Token>, p: nat, q: nat)
    requires Laid(e, 5, line, ts, p, q) && Ends(5, ts[q].kind)
    requires e.Lit? || e.IdentifierNode?
    ensures Reads(5, ts, p, e, q)
  {
    AtomLayout(e, line, ts, p, q);
    if e.Lit? {
      LiteralFactor(ts, p, e.lit, line);
    } else {
      IdentifierFactor(ts, p, e.name);
    }
  }

  lemma AtomLayout(e: Expr, line: nat, ts: seq<Token>, p: nat, q: nat)
    requires Laid(e, 5, line, ts, p, q) && (e.Lit? || e.IdentifierNode?)
    ensures q == p + 1 && ts[p] == Printed(e, 5, line)[0]
    ensures e.IdentifierNode? ==> ts[p].kind == Identifier && ts[p].value == e.name
  {
    assert ts[p] == Printed(e, 5, line)[0];
  }

  lemma {:induction false} ParenthesisedParsesBack(e: Expr, line: nat, ts: seq<Token>, p: nat, q: nat)
    requires Laid(e, 5, line, ts, p, q) && Prec(e) < 5
    ensures Reads(5, ts, p, e, q)
    decreases e, Bonus(e, 5) + 1
  {
    ParenthesisLayout(e, line, ts, p, q);
    ParsesBack(e, 1, line, ts, p + 1, q - 1);
    ParenthesisedFactor(ts, p, e, q - 1);
  }

  lemma ParenthesisLayout(e: Expr, line: nat, ts: seq<Token>, p: nat, q: nat)
    requires Laid(e, 5, line, ts, p, q) && Prec(e) < 5
    ensures Bonus(e, 5) == 30 && Bonus(e, 1) == 0
    ensures p + 1 < q && At(ts, p, OpenParen) && At(ts, q - 1, CloseParen) && Ends(1, ts[q - 1].kind)
    ensures Laid(e, 1, line, ts, p + 1, q - 1)
  {
    var inner := Bare(e, line);
    assert Printed(e, 1, line) == inner;
    SliceParts(ts, p, [Punct(OpenParen, line)] + inner, [Punct(CloseParen, line)]);
    SliceParts(ts, p, [Punct(OpenParen, line)], inner);
  }

  lemma {:induction false} NegationParsesBack(e: Expr, line: nat, ts: seq<Token>, p: nat, q: nat)
    requires Laid(e, 5, line, ts, p, q) && Ends(5, ts[q].kind) && e.NegationNode?
    ensures Reads(5, ts, p, e, q)
    decreases e, Bonus(e, 5) + 1
  {
    NegationLayout(e, line, ts, p, q);
    FactorParsesBack(e.operand, line, ts, p + 1, q);
    NegationFactor(ts, p, e.operand, q);
  }

  lemma NegationLayout(e: Expr, line: nat, ts: seq<Token>, p: nat, q: nat)
    requires Laid(e, 5, line, ts, p, q) && e.NegationNode?
    ensures e == NegationNode(e.operand) && p < |ts| && ts[p].kind == Minus
    ensures Laid(e.operand, 5, line, ts, p + 1, q)
  {
    assert Printed(e, 5, line) == [Punct(Minus, line)] + Printed(e.operand, 5, line);
    SliceParts(ts, p, [Punct(Minus, line)], Printed(e.operand, 5, line));
  }

  lemma {:induction false} CallFactorParsesBack(e: Expr, line: nat, ts: seq<Token>, p: nat, q: nat)
    requires Laid(e, 5, line, ts, p, q) && e.FunctionCallNode?
    ensures Reads(5, ts, p, e, q)
    decreases e, Bonus(e, 5) + 1
  {
    CallLayout(e, line, ts, p, q);
    CallParsesBack(e, line, ts, p + 1, q - 1);
    CallFactor(ts, p, e, q);
  }

  lemma CallLayout(e: Expr, line: nat, ts: seq<Token>, p: nat, q: nat)
    requires Laid(e, 5, line, ts, p, q) && e.FunctionCallNode?
    ensures p + 1 < q && ts[p].kind == Identifier && ts[p].value == e.name && ts[p + 1].kind == OpenParen
    ensures CallLaid(e, line, ts, p + 1, q - 1)
  {
    var list := ArgumentList(e, line);
    var head := [Token(Identifier, e.name, line), Punct(OpenParen, line)];
    assert Printed(e, 5, line) == head + list + [Punct(CloseParen, line)];
    SliceParts(ts, p, head + list, [Punct(CloseParen, line)]);
    SliceParts(ts, p, head, list);
    assert ts[p + 1] == head[1];
  }

  /** Reading a printed call from its opening parenthesis at `p` to its closing one at
      `close`. */
  lemma {:induction false} CallParsesBack(e: Expr, line: nat, ts: seq<Token>, p: nat, close: nat)
    requires CallLaid(e, line, ts, p, close)
    ensures CallReads(ts, p, e, close + 1)
    decreases e, 0, |e.args| + 2
  {
    if e.args == [] {
      EmptyCallParsesBack(e, line, ts, p, close);
    } else {
      ArgumentsCallParsesBack(e, line, ts, p, close);
    }
  }

  lemma EmptyCallParsesBack(e: Expr, line: nat, ts: seq<Token>, p: nat, close: nat)
    requires CallLaid(e, line, ts, p, close) && e.args == []
    ensures CallReads(ts, p, e, close + 1)
  {
    assert LineAt(ts, p) == line;
    EmptyCall(e.name, ts, p);
  }

  lemma {:induction false} ArgumentsCallParsesBack(e: Expr, line: nat, ts: seq<Token>, p: nat, close: nat)
    requires CallLaid(e, line, ts, p, close) && e.args != []
    ensures CallReads(ts, p, e, close + 1)
    decreases e, 0, |e.args| + 1
  {
    var m := FirstArgumentLayout(e, line, ts, p, close);
    ParsesBack(e.args[0], 1, line, ts, p + 1, m);
    CommaArgumentsParseBack(e, 1, line, ts, m, close);
    CallWithArguments(e.name, ts, p, e.args[0], m, e.args, close);
  }

  /** Where the first argument of a printed call ends. */
  lemma FirstArgumentLayout(e: Expr, line: nat, ts: seq<Token>, p: nat, close: nat) returns (m: nat)
    requires CallLaid(e, line, ts, p, close) && e.args != []
    ensures e == FunctionCallNode(e.name, e.args, LineAt(ts, p)) && e.args[..1] == [e.args[0]]
    ensures At(ts, p, OpenParen) && At(ts, close, CloseParen) && p + 1 < |ts| && ts[p + 1].kind != CloseParen
    ensures Laid(e.args[0], 1, line, ts, p + 1, m) && Ends(1, ts[m].kind)
    ensures CommaLaid(e, 1, line, ts, m, close)
  {
    assert LineAt(ts, p) == line;
    ArgumentListTokens(e, line);
    m := FirstSplit(e, line, ts, p, close);
    ArgumentEnd(e, 1, line, ts, m, close);
    LaidIntro(e.args[0], 1, line, ts, p + 1, m);
    CommaLaidIntro(e, 1, line, ts, m, close);
  }

  lemma FirstSplit(e: Expr, line: nat, ts: seq<Token>, p: nat, close: nat) returns (m: nat)
    requires e.FunctionCallNode? && e.args != []
    requires close == p + 1 + |ArgumentList(e, line)| && close < |ts|
    requires Occupies(ts, p + 1, ArgumentList(e, line))
    requires ArgumentList(e, line) == Printed(e.args[0], 1, line) + CommaArguments(e, 1, line)
    ensures p + 1 < |ts| && ts[p + 1].kind != CloseParen
    ensures m == p + 1 + |Printed(e.args[0], 1, line)| && m <= close
    ensures Occupies(ts, p + 1, Printed(e.args[0], 1, line))
    ensures close == m + |CommaArguments(e, 1, line)| && Occupies(ts, m, CommaArguments(e, 1, line))
  {
    var first := Printed(e.args[0], 1, line);
    m := p + 1 + |first|;
    SliceParts(ts, p + 1, first, CommaArguments(e, 1, line));
    FirstToken(e.args[0], 1, line);
  }

  /** A call with arguments prints its first argument, then the others after commas. */
  lemma ArgumentListTokens(e: Expr, line: nat)
    requires e.FunctionCallNode? && Printable(e, line) && e.args != []
    ensures e == FunctionCallNode(e.name, e.args, line) && e.args[..1] == [e.args[0]]
    ensures Printable(e.args[0], line)
    ensures ArgumentList(e, line) == Printed(e.args[0], 1, line) + CommaArguments(e, 1, line)
  {
    assert e.args[..1] == [e.args[0]];
  }

  lemma CommaLaidIntro(e: Expr, i: nat, line: nat, ts: seq<Token>, p: nat, close: nat)
    requires e.FunctionCallNode? && line != 0 && Printable(e, line) && 1 <= i <= |e.args|
    requires close == p + |CommaArguments(e, i, line)| && close < |ts|
    requires Occupies(ts, p, CommaArguments(e, i, line)) && Closes(ts[close], line)
    ensures CommaLaid(e, i, line, ts, p, close)
  {
  }

  /** What follows a printed argument is a comma or the token that ends the list. */
  lemma ArgumentEnd(e: Expr, i: nat, line: nat, ts: seq<Token>, p: nat, close: nat)
    requires e.FunctionCallNode?
    requires close == p + |CommaArguments(e, i, line)| && close < |ts|
    requires Occupies(ts, p, CommaArguments(e, i, line))
    requires Closes(ts[close], line)
    ensures ts[p].kind == Comma || ts[p].kind == CloseParen || ts[p].kind == Semicolon
  {
    if i < |e.args| {
      assert ts[p] == CommaArguments(e, i, line)[0];
    }
  }

  /** The comma loop reads back the printed arguments from index `i` on. */
  lemma {:induction false} CommaArgumentsParseBack(e: Expr, i: nat, line: nat, ts: seq<Token>, p: nat, close: nat)
    requires CommaLaid(e, i, line, ts, p, close)
    ensures ArgumentsRead(ts, p, e.args[..i], e.args, close)
    decreases e, 0, |e.args| - i
  {
    if i == |e.args| {
      CommaArgumentsEnd(e, i, line, ts, p, close);
    } else {
      var m := CommaLayout(e, i, line, ts, p, close);
      ParsesBack(e.args[i], 1, line, ts, p + 1, m);
      CommaArgumentsParseBack(e, i + 1, line, ts, m, close);
      ArgumentsStep(ts, p, e.args[..i], e.args[i], m, e.args, close);
    }
  }

  lemma CommaArgumentsEnd(e: Expr, i: nat, line: nat, ts: seq<Token>, p: nat, close: nat)
    requires CommaLaid(e, i, line, ts, p, close) && i == |e.args|
    ensures ArgumentsRead(ts, p, e.args[..i], e.args, close)
  {
    assert e.args[..i] == e.args;
  }

  /** Where the argument after a comma ends. */
  lemma CommaLayout(e: Expr, i: nat, line: nat, ts: seq<Token>, p: nat, close: nat) returns (m: nat)
    requires CommaLaid(e, i, line, ts, p, close) && i < |e.args|
    ensures e.args[..i] + [e.args[i]] == e.args[..i + 1] && At(ts, p, Comma)
    ensures Laid(e.args[i], 1, line, ts, p + 1, m) && Ends(1, ts[m].kind)
    ensures CommaLaid(e, i + 1, line, ts, m, close)
  {
    CommaArgumentsTokens(e, i, line);
    m := CommaSplit(e, i, line, ts, p, close);
    ArgumentEnd(e, i + 1, line, ts, m, close);
    LaidIntro(e.args[i], 1, line, ts, p + 1, m);
    CommaLaidIntro(e, i + 1, line, ts, m, close);
  }

  lemma CommaSplit(e: Expr, i: nat, line: nat, ts: seq<Token>, p: nat, close: nat) returns (m: nat)
    requires e.FunctionCallNode? && i < |e.args|
    requires close == p + |CommaArguments(e, i, line)| && close < |ts|
    requires Occupies(ts, p, CommaArguments(e, i, line))
    requires CommaArguments(e, i, line)
             == [Punct(Comma, line)] + Printed(e.args[i], 1, line) + CommaArguments(e, i + 1, line)
    ensures At(ts, p, Comma)
    ensures m == p + 1 + |Printed(e.args[i], 1, line)| && m <= close
    ensures Occupies(ts, p + 1, Printed(e.args[i], 1, line))
    ensures close == m + |CommaArguments(e, i + 1, line)| && Occupies(ts, m, CommaArguments(e, i + 1, line))
  {
    var arg := Printed(e.args[i], 1, line);
    m := p + 1 + |arg|;
    SliceParts(ts, p, [Punct(Comma, line)] + arg, CommaArguments(e, i + 1, line));
    SliceParts(ts, p, [Punct(Comma, line)], arg);
  }

  /** The arguments from index `i` print as a comma, argument `i`, and the rest. */
  lemma CommaArgumentsTokens(e: Expr, i: nat, line: nat)
    requires e.FunctionCallNode? && Printable(e, line) && i < |e.args|
    ensures e.args[..i] + [e.args[i]] == e.args[..i + 1] && Printable(e.args[i], line)
    ensures CommaArguments(e, i, line)
            == [Punct(Comma, line)] + Printed(e.args[i], 1, line) + CommaArguments(e, i + 1, line)
  {
    assert e.args[..i] + [e.args[i]] == e.args[..i + 1];
  }

  /** `parseExpression` reads back any expression it could have built, printed on one
      line and followed by a semicolon, and consumes exactly the printed tokens. */
  lemma ExpressionRoundTrip(e: Expr, line: nat)
    requires line != 0 && Printable(e, line)
    ensures var ts := Printed(e, 1, line);
            Binary(1, ts + [Token(Semicolon, ";", line)], 0) == Ok((e, |ts|))
  {
    var ts := Printed(e, 1, line);
    var all := ts + [Token(Semicolon, ";", line)];
    assert all[0..|ts|] == ts;
    OccupiesSlice(all, 0, ts);
    ParsesBack(e, 1, line, all, 0, |ts|);
  }

  /** The text of a natural number is a decimal that reads back as the number. */
  lemma NumberText(n: int)
    requires n >= 0
    ensures IsDecimal(IntToString(n)) && DecimalValue(IntToString(n)) == n
  {
    DecimalValueOfNatToString(n);
  }

  // One step of the parser at a time, each stated without the printed tokens in view.

  lemma EndsLater(level: nat, k: TokenType)
    requires Ends(level, k)
    ensures Ends(level + 1, k)
  {
  }

  lemma SingleOperand(level: nat, ts: seq<Token>, p: nat, e: Expr, q: nat)
    requires 1 <= level <= 4 && Reads(level + 1, ts, p, e, q)
    ensures Folds(level, ts, p, q, e)
  {
    assert Operand(level, ts, p) == ParseAt(level + 1, ts, p);
  }

  lemma TailStops(level: nat, ts: seq<Token>, p: nat, q: nat, e: Expr)
    requires Folds(level, ts, p, q, e) && q < |ts| && Ends(level, ts[q].kind)
    ensures Reads(level, ts, p, e, q)
  {
  }

  lemma TailStep(level: nat, ts: seq<Token>, p: nat, m: nat, e: Expr, q: nat)
    requires OperatorAt(level, ts, m, e) && Folds(level, ts, p, m, e.left)
    requires Reads(level + 1, ts, m + 1, e.right, q)
    ensures Folds(level, ts, p, q, e)
  {
    assert Operand(level, ts, m + 1) == ParseAt(level + 1, ts, m + 1);
  }

  lemma ParenthesisedFactor(ts: seq<Token>, p: nat, e: Expr, m: nat)
    requires At(ts, p, OpenParen) && At(ts, m, CloseParen) && Reads(1, ts, p + 1, e, m)
    ensures Reads(5, ts, p, e, m + 1)
  {
    assert Factor(ts, p) == Parenthesised(ts, p);
  }

  lemma LiteralFactor(ts: seq<Token>, p: nat, lit: LiteralNode, line: nat)
    requires p + 1 < |ts| && Printable(Lit(lit), line) && ts[p] == Printed(Lit(lit), 5, line)[0]
    ensures Reads(5, ts, p, Lit(lit), p + 1)
  {
    if lit.NumberNode? {
      NumberText(lit.n);
    }
  }

  lemma IdentifierFactor(ts: seq<Token>, p: nat, name: string)
    requires p + 1 < |ts| && ts[p].kind == Identifier && ts[p].value == name && ts[p + 1].kind != OpenParen
    ensures Reads(5, ts, p, IdentifierNode(name), p + 1)
  {
    assert Factor(ts, p) == NamedFactor(ts, p);
  }

  lemma NegationFactor(ts: seq<Token>, p: nat, x: Expr, q: nat)
    requires p < |ts| && ts[p].kind == Minus && Reads(5, ts, p + 1, x, q)
    ensures Reads(5, ts, p, NegationNode(x), q)
  {
  }

  lemma CallFactor(ts: seq<Token>, p: nat, e: Expr, q: nat)
    requires e.FunctionCallNode? && p + 1 < |ts| && ts[p].kind == Identifier && ts[p].value == e.name && ts[p + 1].kind == OpenParen
    requires CallReads(ts, p + 1, e, q)
    ensures Reads(5, ts, p, e, q)
  {
    assert Factor(ts, p) == NamedFactor(ts, p);
  }

  lemma EmptyCall(name: string, ts: seq<Token>, p: nat)
    requires At(ts, p, OpenParen) && At(ts, p + 1, CloseParen)
    ensures Call(name, ts, p) == Ok((FunctionCallNode(name, [], LineAt(ts, p)), p + 2))
  {
    var none: seq<Expr> := [];
    assert FirstArgument(ts, p + 1) == Ok((none, p + 1));
    assert Arguments(ts, p + 1, none) == Ok((none, p + 1));
  }

  lemma CallWithArguments(name: string, ts: seq<Token>, p: nat, first: Expr, m: nat, args: seq<Expr>, close: nat)
    requires At(ts, p, OpenParen) && p + 1 < |ts| && ts[p + 1].kind != CloseParen
    requires Reads(1, ts, p + 1, first, m) && ArgumentsRead(ts, m, [first], args, close)
    requires At(ts, close, CloseParen)
    ensures CallReads(ts, p, FunctionCallNode(name, args, LineAt(ts, p)), close + 1)
  {
    assert FirstArgument(ts, p + 1) == Ok(([first], m));
  }

  lemma ArgumentsStep(ts: seq<Token>, p: nat, acc: seq<Expr>, arg: Expr, m: nat, args: seq<Expr>, close: nat)
    requires At(ts, p, Comma) && Reads(1, ts, p + 1, arg, m) && ArgumentsRead(ts, m, acc + [arg], args, close)
    ensures ArgumentsRead(ts, p, acc, args, close)
  {
  }
}
