/** The recursive-descent parser of src/parser/Parser.ts written as functions over the
    token sequence and a cursor position. The cursor plays the role of the source's
    shrinking token array: `ts[pos]` is the current token and `pos == |ts|` means there
    is none. Every function returns the node it built and the position after it, or
    the error the source would throw. */
module Grammar {

  import opened Base
  import opened Tokens
  import opened Numerals
  import opened Ast

  /** What parsing can throw: a syntax error with the line it reports; the host's
      TypeError when an identifier is the very last token of an expression (the source
      then reads the kind of a missing token); and a number text whose JavaScript value
      is not an integer the model represents. */
  datatype ParseError = SyntaxError(line: nat) | NullAccess | Unrepresentable(line: nat)

  /** A node and the cursor position after it, or an error. */
  type Parsed<T> = Result<(T, nat), ParseError>

  /** `currentLine` once the cursor is at `p`: the line of the nearest token at or before
      `p` whose line is not 0, and 0 when there is none. */
  function LineAt(ts: seq<Token>, p: nat): nat
    requires p <= |ts|
  {
    if p < |ts| && ts[p].line != 0 then ts[p].line
    else if p == 0 then 0
    else LineAt(ts, p - 1)
  }

  /** The current token exists and has kind `k`. */
  predicate At(ts: seq<Token>, pos: nat, k: TokenType) {
    pos < |ts| && ts[pos].kind == k
  }

  /** `expect`: consume a token of kind `k`, or fail with the current line. */
  function Expect(ts: seq<Token>, pos: nat, k: TokenType): (r: Result<nat, ParseError>)
    requires pos <= |ts|
    ensures r.Ok? <==> At(ts, pos, k)
    ensures r.Ok? ==> r.value == pos + 1
    ensures r.Err? ==> r.error == SyntaxError(LineAt(ts, pos))
  {
    if At(ts, pos, k) then Ok(pos + 1) else Err(SyntaxError(LineAt(ts, pos)))
  }

  /** The four binary precedence levels, loosest first: logical, comparison, additive,
      multiplicative. */
  type Level = l: nat | 1 <= l <= 4 witness 1

  /** The operator tokens a level's loop accepts. */
  predicate IsOperator(level: Level, k: TokenType) {
    match level
    case 1 => k == And || k == Or
    case 2 => k == Equal || k == NotEqual || k == GreaterThan || k == LessThan
              || k == GreaterThanOrEqual || k == LessThanOrEqual
    case 3 => k == Plus || k == Minus
    case 4 => k == Multiply || k == Divide
  }

  predicate IsBinaryOperator(k: TokenType) {
    IsOperator(1, k) || IsOperator(2, k) || IsOperator(3, k) || IsOperator(4, k)
  }

  /** The node an operator token builds from its two operands. */
  function Combine(k: TokenType, left: Expr, right: Expr): Expr
    requires IsBinaryOperator(k)
  {
    match k
    case And => LogicalNode(AndOp, left, right)
    case Or => LogicalNode(OrOp, left, right)
    case Equal => ConditionalNode(Eq, left, right)
    case NotEqual => ConditionalNode(Neq, left, right)
    case GreaterThan => ConditionalNode(Gt, left, right)
    case LessThan => ConditionalNode(Lt, left, right)
    case GreaterThanOrEqual => ConditionalNode(Gte, left, right)
    case LessThanOrEqual => ConditionalNode(Lte, left, right)
    case Plus => ArithmeticNode(Add, left, right)
    case Minus => ArithmeticNode(Sub, left, right)
    case Multiply => ArithmeticNode(Mul, left, right)
    case Divide => ArithmeticNode(Div, left, right)
  }

  /** `parseExpression` (level 1), `parseConditionalExpression` (2),
      `parseArithmeticExpression` (3) and `parseTerm` (4): one operand, then the
      level's operator loop. */
  function Binary(level: Level, ts: seq<Token>, pos: nat): (r: Parsed<Expr>)
    requires pos <= |ts|
    ensures r.Ok? ==> pos < r.value.1 <= |ts|
    decreases |ts| - pos, 2 * (5 - level) + 1
  {
    var first :- Operand(level, ts, pos);
    Tail(level, ts, first.1, first.0)
  }

  /** The operand parser one level tighter: the next level, or `parseFactor` below
      level 4. */
  function Operand(level: Level, ts: seq<Token>, pos: nat): (r: Parsed<Expr>)
    requires pos <= |ts|
    ensures r.Ok? ==> pos < r.value.1 <= |ts|
    decreases |ts| - pos, 2 * (5 - level)
  {
    if level == 4 then Factor(ts, pos) else Binary(level + 1, ts, pos)
  }

  /** The operator loop of a level: while the current token is one of the level's
      operators, consume it and an operand, and fold to the left. */
  function Tail(level: Level, ts: seq<Token>, pos: nat, acc: Expr): (r: Parsed<Expr>)
    requires pos <= |ts|
    ensures r.Ok? ==> pos <= r.value.1 <= |ts|
    decreases |ts| - pos, 0
  {
    if pos < |ts| && IsOperator(level, ts[pos].kind) then
      var right :- Operand(level, ts, pos + 1);
      Tail(level, ts, right.1, Combine(ts[pos].kind, acc, right.0))
    else
      Ok((acc, pos))
  }

  /** `parseFactor`. */
  function Factor(ts: seq<Token>, pos: nat): (r: Parsed<Expr>)
    requires pos <= |ts|
    ensures r.Ok? ==> pos < r.value.1 <= |ts|
    decreases |ts| - pos, 1
  {
    if pos == |ts| then Err(SyntaxError(0))
    else
      var t := ts[pos];
      if t.kind == Identifier then NamedFactor(ts, pos)
      else if t.kind == String then Ok((Lit(StringNode(Unquote(t.value))), pos + 1))
      else if t.kind == Number then
        if IsDecimal(t.value) then Ok((Lit(NumberNode(DecimalValue(t.value))), pos + 1))
        else Err(Unrepresentable(t.line))
      else if t.kind == Boolean then Ok((Lit(BooleanNode(t.value == "true")), pos + 1))
      else if t.kind == Minus then
        var operand :- Factor(ts, pos + 1);
        Ok((NegationNode(operand.0), operand.1))
      else if t.kind == OpenParen then Parenthesised(ts, pos)
      else Err(SyntaxError(t.line))
  }

  /** A factor that starts with a name: a call when an opening parenthesis follows,
      a variable otherwise. */
  function NamedFactor(ts: seq<Token>, pos: nat): (r: Parsed<Expr>)
    requires At(ts, pos, Identifier)
    ensures r.Ok? ==> pos < r.value.1 <= |ts|
    decreases |ts| - pos, 0
  {
    if pos + 1 == |ts| then Err(NullAccess)
    else if ts[pos + 1].kind == OpenParen then Call(ts[pos].value, ts, pos + 1)
    else Ok((IdentifierNode(ts[pos].value), pos + 1))
  }

  /** A parenthesised expression, with the cursor on the opening parenthesis. */
  function Parenthesised(ts: seq<Token>, pos: nat): (r: Parsed<Expr>)
    requires At(ts, pos, OpenParen)
    ensures r.Ok? ==> pos < r.value.1 <= |ts|
    decreases |ts| - pos, 0
  {
    var inner :- Binary(1, ts, pos + 1);
    var next :- Expect(ts, inner.1, CloseParen);
    Ok((inner.0, next))
  }

  /** A string token's text without its first and last character (`slice(1, -1)`). */
  function Unquote(s: string): (r: string)
    ensures |s| >= 2 ==> r == s[1..|s| - 1]
    ensures |s| < 2 ==> r == ""
  {
    if |s| >= 2 then s[1..|s| - 1] else ""
  }

  /** Unquoting undoes quoting: the text between a string token's two delimiters is
      what its literal holds, whatever the delimiters and the text are. */
  lemma UnquoteQuoted(q: char, t: string)
    ensures Unquote([q] + t + [q]) == t
    ensures |Unquote([q] + t + [q])| + 2 == |[q] + t + [q]|
  {
    var s := [q] + t + [q];
    assert s[1..|s| - 1] == t;
  }

  /** `parseFunctionCall`, with the cursor on the opening parenthesis. The call's line
      is the current line at that parenthesis. */
  function Call(name: string, ts: seq<Token>, pos: nat): (r: Parsed<Expr>)
    requires At(ts, pos, OpenParen)
    ensures r.Ok? ==> pos < r.value.1 <= |ts| && r.value.0.FunctionCallNode?
    ensures r.Ok? ==> r.value.0.name == name && r.value.0.line == LineAt(ts, pos)
    ensures r.Ok? ==> At(ts, r.value.1 - 1, CloseParen)
    decreases |ts| - pos, 0
  {
    var first :- FirstArgument(ts, pos + 1);
    var args :- Arguments(ts, first.1, first.0);
    var next :- Expect(ts, args.1, CloseParen);
    Ok((FunctionCallNode(name, args.0, LineAt(ts, pos)), next))
  }

  /** No argument when the current token closes the list, one expression otherwise. */
  function FirstArgument(ts: seq<Token>, pos: nat): (r: Parsed<seq<Expr>>)
    requires pos <= |ts|
    ensures r.Ok? ==> pos <= r.value.1 <= |ts|
    decreases |ts| - pos, 2 * 4 + 2
  {
    if At(ts, pos, CloseParen) then Ok(([], pos))
    else
      var arg :- Binary(1, ts, pos);
      Ok(([arg.0], arg.1))
  }

  /** The comma loop shared by calls and `print`: while the current token is a comma,
      consume it and one more expression. */
  function Arguments(ts: seq<Token>, pos: nat, acc: seq<Expr>): (r: Parsed<seq<Expr>>)
    requires pos <= |ts|
    ensures r.Ok? ==> pos <= r.value.1 <= |ts| && acc <= r.value.0
    decreases |ts| - pos, 0
  {
    if At(ts, pos, Comma) then
      var arg :- Binary(1, ts, pos + 1);
      Arguments(ts, arg.1, acc + [arg.0])
    else
      Ok((acc, pos))
  }

  /** `parseVariableDeclaration`, with the cursor on the colon after the name. */
  function VariableDeclaration(name: string, ts: seq<Token>, pos: nat): (r: Parsed<Stmt>)
    requires At(ts, pos, Colon)
    ensures r.Ok? ==> pos < r.value.1 <= |ts| && r.value.0.VariableDeclarationNode?
    ensures !At(ts, pos + 1, TypeAnnotation) ==> r == Err(SyntaxError(LineAt(ts, pos + 1)))
    ensures At(ts, pos + 1, TypeAnnotation) && !At(ts, pos + 2, Assignment) ==> r == Err(SyntaxError(LineAt(ts, pos + 2)))
    ensures r.Ok? ==> At(ts, pos + 1, TypeAnnotation) && At(ts, pos + 2, Assignment) && Binary(1, ts, pos + 3).Ok?
    ensures r.Ok? ==>
      var value := Binary(1, ts, pos + 3).value;
      && At(ts, value.1, Semicolon)
      && r.value == (VariableDeclarationNode(name, Annotation(ts[pos + 1].value, pos + 1), value.0, LineAt(ts, pos)), value.1 + 1)
    decreases |ts| - pos, 0
  {
    if !At(ts, pos + 1, TypeAnnotation) then Err(SyntaxError(LineAt(ts, pos + 1)))
    else if !At(ts, pos + 2, Assignment) then Err(SyntaxError(LineAt(ts, pos + 2)))
    else
    DeclaredValue(name, Annotation(ts[pos + 1].value, pos + 1), LineAt(ts, pos), ts, pos + 3)
  }

  function DeclaredValue(name: string, annotation: TypeAnnotation, line: nat, ts: seq<Token>, pos: nat): (r: Parsed<Stmt>)
    requires pos <= |ts|
    ensures r.Ok? ==> pos < r.value.1 <= |ts| && r.value.0.VariableDeclarationNode?
    ensures r.Ok? <==> Binary(1, ts, pos).Ok? && At(ts, Binary(1, ts, pos).value.1, Semicolon)
    ensures r.Ok? ==>
      r.value == (VariableDeclarationNode(name, annotation, Binary(1, ts, pos).value.0, line), Binary(1, ts, pos).value.1 + 1)
    decreases |ts| - pos, 0
  {
    var value :- Binary(1, ts, pos);
    var next :- Expect(ts, value.1, Semicolon);
    Ok((VariableDeclarationNode(name, annotation, value.0, line), next))
  }

  /** `parseAssignmentVariable`, with the cursor on the `=` after the name. */
  function AssignmentStatement(name: string, ts: seq<Token>, pos: nat): (r: Parsed<Stmt>)
    requires pos < |ts|
    ensures r.Ok? ==> pos < r.value.1 <= |ts| && r.value.0.AssignmentNode?
    ensures r.Ok? <==> Binary(1, ts, pos + 1).Ok? && At(ts, Binary(1, ts, pos + 1).value.1, Semicolon)
    ensures r.Ok? ==>
      r.value == (AssignmentNode(name, Binary(1, ts, pos + 1).value.0, LineAt(ts, pos)), Binary(1, ts, pos + 1).value.1 + 1)
    decreases |ts| - pos, 0
  {
    var value :- Binary(1, ts, pos + 1);
    var next :- Expect(ts, value.1, Semicolon);
    Ok((AssignmentNode(name, value.0, LineAt(ts, pos)), next))
  }

  /** `parsePrint`, with the cursor on `print`: at least one expression. */
  function PrintStatement(ts: seq<Token>, pos: nat): (r: Parsed<Stmt>)
    requires pos < |ts|
    ensures r.Ok? ==> pos < r.value.1 <= |ts| && r.value.0.PrintNode? && |r.value.0.args| >= 1
    ensures r.Ok? ==> Binary(1, ts, pos + 1).Ok?
    ensures r.Ok? ==>
      var first := Binary(1, ts, pos + 1).value;
      && Arguments(ts, first.1, [first.0]).Ok?
      && var args := Arguments(ts, first.1, [first.0]).value;
      && At(ts, args.1, Semicolon) && args.0[0] == first.0
      && r.value == (PrintNode(args.0, LineAt(ts, pos)), args.1 + 1)
    decreases |ts| - pos, 0
  {
    var first :- Binary(1, ts, pos + 1);
    var args :- Arguments(ts, first.1, [first.0]);
    var next :- Expect(ts, args.1, Semicolon);
    Ok((PrintNode(args.0, LineAt(ts, pos)), next))
  }

  /** `parseReturn`, with the cursor on the first token of the returned expression; the
      statement's line is the current line there. */
  function ReturnStatement(ts: seq<Token>, pos: nat): (r: Parsed<Stmt>)
    requires pos <= |ts|
    ensures r.Ok? ==> pos < r.value.1 <= |ts| && r.value.0.ReturnNode?
    ensures r.Ok? ==> r.value.0.line == LineAt(ts, pos)
    ensures r.Ok? <==> Binary(1, ts, pos).Ok? && At(ts, Binary(1, ts, pos).value.1, Semicolon)
    ensures r.Ok? ==> r.value == (ReturnNode(Binary(1, ts, pos).value.0, LineAt(ts, pos)), Binary(1, ts, pos).value.1 + 1)
    decreases |ts| - pos, 0
  {
    var value :- Binary(1, ts, pos);
    var next :- Expect(ts, value.1, Semicolon);
    Ok((ReturnNode(value.0, LineAt(ts, pos)), next))
  }

  /** `parseFunctionParameter`: a name, a colon and a type annotation. */
  function Parameter(ts: seq<Token>, pos: nat): (r: Parsed<Param>)
    requires pos <= |ts|
    ensures r.Ok? ==> r.value.1 == pos + 3 <= |ts|
    ensures r.Ok? ==> (ts[pos + 2].kind == TypeAnnotation &&
                       r.value.0 == Param(ts[pos].value, Annotation(ts[pos + 2].value, pos + 2)))
  {
    if !At(ts, pos, Identifier) then Err(SyntaxError(LineAt(ts, pos)))
    else if !At(ts, pos + 1, Colon) then Err(SyntaxError(LineAt(ts, pos + 1)))
    else if !At(ts, pos + 2, TypeAnnotation) then Err(SyntaxError(LineAt(ts, pos + 2)))
    else Ok((Param(ts[pos].value, Annotation(ts[pos + 2].value, pos + 2)), pos + 3))
  }

  /** The token kinds that end a parameter list. */
  predicate EndsParameters(ts: seq<Token>, pos: nat) {
    At(ts, pos, OpenBrace) || At(ts, pos, DoubleColon) || At(ts, pos, Arrow)
  }

  /** The parameter loop of `parseFunctionDefinition`: parameters until `{`, `::` or
      `=>`. */
  function Parameters(ts: seq<Token>, pos: nat, acc: seq<Param>): (r: Parsed<seq<Param>>)
    requires pos <= |ts|
    ensures r.Ok? ==> pos <= r.value.1 <= |ts| && EndsParameters(ts, r.value.1)
    ensures r.Ok? ==> acc <= r.value.0
    decreases |ts| - pos
  {
    if EndsParameters(ts, pos) then Ok((acc, pos))
    else
      var param :- Parameter(ts, pos);
      Parameters(ts, param.1, acc + [param.0])
  }

  /** `parseFunctionDefinition`, with the cursor on `fn`. A function without `::` gets a
      fresh `none` annotation; its identity is that of the `fn` token. */
  function FunctionDefinition(ts: seq<Token>, pos: nat): (r: Parsed<Stmt>)
    requires At(ts, pos, Function)
    ensures r.Ok? ==> pos < r.value.1 <= |ts| && r.value.0.FunctionDefinitionNode?
    ensures !At(ts, pos + 1, Identifier) ==> r == Err(SyntaxError(LineAt(ts, pos + 1)))
    ensures r.Ok? ==> At(ts, pos + 1, Identifier) && Signature(ts, pos + 2, pos).Ok?
    ensures r.Ok? ==>
      var signature := Signature(ts, pos + 2, pos).value;
      && FunctionBody(ts, signature.1).Ok?
      && var body := FunctionBody(ts, signature.1).value;
      && r.value == (FunctionDefinitionNode(FunctionDef(ts[pos + 1].value, signature.0.0, signature.0.1, body.0, LineAt(ts, pos))), body.1)
    decreases |ts| - pos, 1
  {
    if !At(ts, pos + 1, Identifier) then Err(SyntaxError(LineAt(ts, pos + 1)))
    else
    var signature :- Signature(ts, pos + 2, pos);
    var (params, returnType) := signature.0;
    var body :- FunctionBody(ts, signature.1);
    var def := FunctionDef(ts[pos + 1].value, params, returnType, body.0, LineAt(ts, pos));
    Ok((FunctionDefinitionNode(def), body.1))
  }

  /** The parameters and the optional return annotation of a definition whose `fn`
      token is at `fnPos`. */
  function Signature(ts: seq<Token>, pos: nat, fnPos: nat): (r: Parsed<(seq<Param>, TypeAnnotation)>)
    requires pos <= |ts|
    ensures r.Ok? ==> pos <= r.value.1 <= |ts|
    ensures r.Ok? ==> Parameters(ts, pos, []).Ok?
    ensures r.Ok? ==>
      var params := Parameters(ts, pos, []).value;
      && ReturnAnnotation(ts, params.1, fnPos).Ok?
      && r.value == ((params.0, ReturnAnnotation(ts, params.1, fnPos).value.0), ReturnAnnotation(ts, params.1, fnPos).value.1)
  {
    var params :- Parameters(ts, pos, []);
    var result :- ReturnAnnotation(ts, params.1, fnPos);
    Ok(((params.0, result.0), result.1))
  }

  /** The optional `:: type` of a definition; `fnPos` is where its `fn` token is. */
  function ReturnAnnotation(ts: seq<Token>, pos: nat, fnPos: nat): (r: Parsed<TypeAnnotation>)
    requires pos <= |ts|
    ensures r.Ok? ==> pos <= r.value.1 <= |ts|
    ensures r.Ok? && !At(ts, pos, DoubleColon) ==> r.value == (Annotation("none", fnPos), pos)
  {
    if At(ts, pos, DoubleColon) then
      if At(ts, pos + 1, TypeAnnotation) then Ok((Annotation(ts[pos + 1].value, pos + 1), pos + 2))
      else Err(SyntaxError(LineAt(ts, pos + 1)))
    else
      Ok((Annotation("none", fnPos), pos))
  }

  /** A definition's body: `=> expr;` (one return statement) or a braced block. */
  function FunctionBody(ts: seq<Token>, pos: nat): (r: Parsed<Program>)
    requires pos <= |ts|
    ensures r.Ok? ==> pos < r.value.1 <= |ts|
    ensures r.Ok? && At(ts, pos, Arrow) ==> |r.value.0.statements| == 1 && r.value.0.statements[0].ReturnNode?
    decreases |ts| - pos, 1
  {
    if At(ts, pos, Arrow) then
      var ret :- ReturnStatement(ts, pos + 1);
      Ok((Program([ret.0]), ret.1))
    else
      BracedBlock(ts, pos)
  }

  /** `{`, a block, `}`. */
  function BracedBlock(ts: seq<Token>, pos: nat): (r: Parsed<Program>)
    requires pos <= |ts|
    ensures r.Ok? ==> pos + 2 <= r.value.1 <= |ts|
    decreases |ts| - pos, 0
  {
    if !At(ts, pos, OpenBrace) then Err(SyntaxError(LineAt(ts, pos)))
    else
    var block :- Statements(ts, pos + 1);
    var next :- Expect(ts, block.1, CloseBrace);
    Ok((block.0, next))
  }

  /** `parseIfStatement`, with the cursor on `if`. */
  function IfStatement(ts: seq<Token>, pos: nat): (r: Parsed<Stmt>)
    requires At(ts, pos, If)
    ensures r.Ok? ==> pos < r.value.1 <= |ts| && r.value.0.IfElseNode?
    ensures r.Ok? ==> Binary(1, ts, pos + 1).Ok?
    ensures r.Ok? ==>
      var cond := Binary(1, ts, pos + 1).value;
      && BracedBlock(ts, cond.1).Ok?
      && var body := BracedBlock(ts, cond.1).value;
      && ElseChain(ts, body.1, [], None).Ok?
      && var rest := ElseChain(ts, body.1, [], None).value;
      && r.value == (IfElseNode(cond.0, body.0, LineAt(ts, pos), rest.0.0, rest.0.1), rest.1)
    decreases |ts| - pos, 1
  {
    var cond :- Binary(1, ts, pos + 1);
    var body :- BracedBlock(ts, cond.1);
    var rest :- ElseChain(ts, body.1, [], None);
    var (elseIfs, elseBlock) := rest.0;
    Ok((IfElseNode(cond.0, body.0, LineAt(ts, pos), elseIfs, elseBlock), rest.1))
  }

  /** The `else` loop of `parseIfStatement`: each `else if` is appended in order; each
      bare `else` replaces the previous one. */
  function ElseChain(ts: seq<Token>, pos: nat, elseIfs: seq<IfBranch>, elseBlock: Option<ElseBranch>)
    : (r: Parsed<(seq<IfBranch>, Option<ElseBranch>)>)
    requires pos <= |ts|
    ensures r.Ok? ==> pos <= r.value.1 <= |ts| && !At(ts, r.value.1, Else)
    ensures r.Ok? ==> elseIfs <= r.value.0.0
    ensures !At(ts, pos, Else) ==> r == Ok(((elseIfs, elseBlock), pos))
    decreases |ts| - pos, 1
  {
    if At(ts, pos, Else) then
      var step :- ElseStep(ts, pos, elseIfs, elseBlock);
      ElseChain(ts, step.1, step.0.0, step.0.1)
    else
      Ok(((elseIfs, elseBlock), pos))
  }

  /** One turn of the `else` loop, with the cursor on `else`. */
  function ElseStep(ts: seq<Token>, pos: nat, elseIfs: seq<IfBranch>, elseBlock: Option<ElseBranch>)
    : (r: Parsed<(seq<IfBranch>, Option<ElseBranch>)>)
    requires At(ts, pos, Else)
    ensures r.Ok? ==> pos < r.value.1 <= |ts| && elseIfs <= r.value.0.0
    ensures r.Ok? && At(ts, pos + 1, If) ==>
      && Binary(1, ts, pos + 2).Ok?
      && var cond := Binary(1, ts, pos + 2).value;
      && BracedBlock(ts, cond.1).Ok?
      && var body := BracedBlock(ts, cond.1).value;
      && r.value == ((elseIfs + [IfBranch(cond.0, body.0, LineAt(ts, pos + 1))], elseBlock), body.1)
    ensures r.Ok? && !At(ts, pos + 1, If) ==>
      && BracedBlock(ts, pos + 1).Ok?
      && var body := BracedBlock(ts, pos + 1).value;
      && r.value == ((elseIfs, Some(ElseBranch(body.0, LineAt(ts, pos)))), body.1)
    decreases |ts| - pos, 0
  {
    var line := LineAt(ts, pos);
    if At(ts, pos + 1, If) then
      var cond :- Binary(1, ts, pos + 2);
      var body :- BracedBlock(ts, cond.1);
      Ok(((elseIfs + [IfBranch(cond.0, body.0, LineAt(ts, pos + 1))], elseBlock), body.1))
    else
      var body :- BracedBlock(ts, pos + 1);
      Ok(((elseIfs, Some(ElseBranch(body.0, line))), body.1))
  }

  /** `parseWhileStatement`, with the cursor on `while`; the condition is parsed at the
      comparison level, so `&&` and `||` cannot appear in it unparenthesised. */
  function WhileStatement(ts: seq<Token>, pos: nat): (r: Parsed<Stmt>)
    requires At(ts, pos, While)
    ensures r.Ok? ==> pos < r.value.1 <= |ts| && r.value.0.WhileNode?
    ensures r.Ok? ==> Binary(2, ts, pos + 1).Ok?
    ensures r.Ok? ==>
      var cond := Binary(2, ts, pos + 1).value;
      && BracedBlock(ts, cond.1).Ok?
      && r.value == (WhileNode(cond.0, BracedBlock(ts, cond.1).value.0, LineAt(ts, pos)), BracedBlock(ts, cond.1).value.1)
    decreases |ts| - pos, 1
  {
    var cond :- Binary(2, ts, pos + 1);
    var body :- BracedBlock(ts, cond.1);
    Ok((WhileNode(cond.0, body.0, LineAt(ts, pos)), body.1))
  }

  /** A `while` condition is a comparison: when the comparison read after `while` is
      followed by `&&` or `||`, the loop is a syntax error at that operator's line,
      where an `if` would have gone on reading the logical expression. */
  lemma WhileConditionStopsAtLogical(ts: seq<Token>, pos: nat)
    requires At(ts, pos, While) && Binary(2, ts, pos + 1).Ok?
    requires Binary(2, ts, pos + 1).value.1 < |ts| && IsOperator(1, ts[Binary(2, ts, pos + 1).value.1].kind)
    ensures WhileStatement(ts, pos) == Err(SyntaxError(LineAt(ts, Binary(2, ts, pos + 1).value.1)))
  {
  }

  /** Of two bare `else`s in a row, the later one is the statement's `else`: the
      earlier block is read and then dropped. */
  lemma LaterElseReplaces(ts: seq<Token>, pos: nat, elseIfs: seq<IfBranch>, elseBlock: Option<ElseBranch>)
    requires At(ts, pos, Else) && !At(ts, pos + 1, If) && BracedBlock(ts, pos + 1).Ok?
    requires var q := BracedBlock(ts, pos + 1).value.1;
      At(ts, q, Else) && !At(ts, q + 1, If) && BracedBlock(ts, q + 1).Ok?
      && !At(ts, BracedBlock(ts, q + 1).value.1, Else)
    ensures var q := BracedBlock(ts, pos + 1).value.1;
      var last := BracedBlock(ts, q + 1).value;
      ElseChain(ts, pos, elseIfs, elseBlock) == Ok(((elseIfs, Some(ElseBranch(last.0, LineAt(ts, q)))), last.1))
  {
    var q := BracedBlock(ts, pos + 1).value.1;
    var first := Some(ElseBranch(BracedBlock(ts, pos + 1).value.0, LineAt(ts, pos)));
    assert ElseStep(ts, pos, elseIfs, elseBlock) == Ok(((elseIfs, first), q));
    var last := BracedBlock(ts, q + 1).value;
    assert ElseStep(ts, q, elseIfs, first) == Ok(((elseIfs, Some(ElseBranch(last.0, LineAt(ts, q)))), last.1));
  }

  /** `parseStatement`: dispatch on the current token; a name dispatches on the token
      after it. A call used as a statement takes no semicolon. */
  function Statement(ts: seq<Token>, pos: nat): (r: Parsed<Stmt>)
    requires pos <= |ts|
    ensures r.Ok? ==> pos < r.value.1 <= |ts|
    decreases |ts| - pos, 2
  {
    if pos == |ts| then Err(SyntaxError(0))
    else
      match ts[pos].kind
      case While => WhileStatement(ts, pos)
      case If => IfStatement(ts, pos)
      case Function => FunctionDefinition(ts, pos)
      case Return => ReturnStatement(ts, pos + 1)
      case Print => PrintStatement(ts, pos)
      case Identifier => NamedStatement(ts, pos)
      case _ => Err(SyntaxError(ts[pos].line))
  }

  /** Which statement `parseStatement` builds is decided by the current token: no
      token, or one that starts no statement, is a syntax error, and each statement
      keyword, and a name, gives its own kind of statement. */
  lemma StatementLeadingToken(ts: seq<Token>, pos: nat)
    requires pos <= |ts|
    ensures var r := Statement(ts, pos);
      && (pos == |ts| ==> r == Err(SyntaxError(0)))
      && (pos < |ts| && ts[pos].kind !in {While, If, Function, Return, Print, Identifier} ==>
            r == Err(SyntaxError(ts[pos].line)))
      && (r.Ok? ==> (ts[pos].kind == While <==> r.value.0.WhileNode?))
      && (r.Ok? ==> (ts[pos].kind == If <==> r.value.0.IfElseNode?))
      && (r.Ok? ==> (ts[pos].kind == Function <==> r.value.0.FunctionDefinitionNode?))
      && (r.Ok? ==> (ts[pos].kind == Return <==> r.value.0.ReturnNode?))
      && (r.Ok? ==> (ts[pos].kind == Print <==> r.value.0.PrintNode?))
      && (r.Ok? ==> (ts[pos].kind == Identifier <==>
            r.value.0.VariableDeclarationNode? || r.value.0.AssignmentNode? || r.value.0.CallStatement?))
  {
  }

  /** The statements that start with a name: the token after the name decides. */
  function NamedStatement(ts: seq<Token>, pos: nat): (r: Parsed<Stmt>)
    requires At(ts, pos, Identifier)
    ensures r.Ok? ==> pos < r.value.1 <= |ts|
    ensures pos + 1 == |ts| ==> r == Err(SyntaxError(0))
    ensures r.Ok? ==> pos + 1 < |ts|
    ensures r.Ok? ==> (r.value.0.VariableDeclarationNode? || r.value.0.AssignmentNode? || r.value.0.CallStatement?)
                      && r.value.0.name == ts[pos].value
    ensures r.Ok? ==> (ts[pos + 1].kind == Colon <==> r.value.0.VariableDeclarationNode?)
    ensures r.Ok? ==> (ts[pos + 1].kind == Assignment <==> r.value.0.AssignmentNode?)
    ensures r.Ok? ==> (ts[pos + 1].kind == OpenParen <==> r.value.0.CallStatement?)
    ensures r.Ok? && ts[pos + 1].kind == OpenParen ==>
      && Call(ts[pos].value, ts, pos + 1).Ok?
      && var call := Call(ts[pos].value, ts, pos + 1).value;
      && r.value == (CallStatement(ts[pos].value, call.0.args, LineAt(ts, pos + 1)), call.1)
      && At(ts, r.value.1 - 1, CloseParen)
    decreases |ts| - pos, 1
  {
    var name := ts[pos].value;
    if pos + 1 == |ts| then Err(SyntaxError(0))
    else
      match ts[pos + 1].kind
      case Colon => VariableDeclaration(name, ts, pos + 1)
      case Assignment => AssignmentStatement(name, ts, pos + 1)
      case OpenParen =>
        var call :- Call(name, ts, pos + 1);
        Ok((CallStatement(name, call.0.args, call.0.line), call.1))
      case _ => Err(SyntaxError(ts[pos + 1].line))
  }

  /** `parseProgram`: statements until the tokens run out or a `}` is current; the `}`
      is not consumed. */
  function Block(ts: seq<Token>, pos: nat, acc: seq<Stmt>): (r: Parsed<seq<Stmt>>)
    requires pos <= |ts|
    ensures r.Ok? ==> pos <= r.value.1 <= |ts| && acc <= r.value.0
    ensures r.Ok? ==> r.value.1 == |ts| || ts[r.value.1].kind == CloseBrace
    decreases |ts| - pos, 3
  {
    if pos == |ts| || ts[pos].kind == CloseBrace then Ok((acc, pos))
    else
      var stmt :- Statement(ts, pos);
      Block(ts, stmt.1, acc + [stmt.0])
  }

  /** `parseProgram` as a whole: the statements of a block, collected into a program. */
  function Statements(ts: seq<Token>, pos: nat): (r: Parsed<Program>)
    requires pos <= |ts|
    ensures r.Ok? ==> pos <= r.value.1 <= |ts|
    decreases |ts| - pos, 4
  {
    var block :- Block(ts, pos, []);
    Ok((Program(block.0), block.1))
  }

  /** `parse`: the top-level block. Whatever follows a `}` that closes nothing is never
      looked at. */
  function Parse(ts: seq<Token>): (r: Result<Program, ParseError>)
  {
    var block :- Statements(ts, 0);
    Ok(block.0)
  }
}
