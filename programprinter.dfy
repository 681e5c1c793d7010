/** A printer for whole programs, and the proof that the statement parser of
    src/parser/Parser.ts reads a printed program back as the same tree. Every token is
    placed on one line. A type annotation's identity is the index of the token it was
    read from, so a printable tree carries, for each annotation, the index its token
    gets in the printed text. */
module ProgramPrinting {

  import opened Base
  import opened Tokens
  import opened Ast
  import opened Grammar
  import opened Printing

  /** A parameter list: `name : type` for each parameter from index `i` on. */
  function ParamTokens(params: seq<Param>, i: nat, line: nat): (ts: seq<Token>)
    requires i <= |params|
    ensures |ts| == 3 * (|params| - i)
    decreases |params| - i
  {
    if i == |params| then []
    else
      [Token(Identifier, params[i].paramName, line), Punct(Colon, line),
       Token(TypeAnnotation, params[i].paramType.name, line)]
      + ParamTokens(params, i + 1, line)
  }

  /** The return annotation: `:: type`, left out when the type is `none`. */
  function ReturnTokens(t: TypeAnnotation, line: nat): (ts: seq<Token>)
    ensures |ts| == if t.name == "none" then 0 else 2
  {
    if t.name == "none" then [] else [Punct(DoubleColon, line), Token(TypeAnnotation, t.name, line)]
  }

  /** The tokens of a statement. */
  function StmtTokens(s: Stmt, line: nat): (ts: seq<Token>)
    decreases s, 2, 0
  {
    match s
    case VariableDeclarationNode(name, t, value, _) =>
      [Token(Identifier, name, line), Punct(Colon, line), Token(TypeAnnotation, t.name, line), Punct(Assignment, line)]
      + Printed(value, 1, line) + [Punct(Semicolon, line)]
    case AssignmentNode(name, value, _) =>
      [Token(Identifier, name, line), Punct(Assignment, line)] + Printed(value, 1, line) + [Punct(Semicolon, line)]
    case PrintNode(args, _) =>
      [Punct(Print, line)] + ArgumentList(FunctionCallNode("print", args, line), line) + [Punct(Semicolon, line)]
    case FunctionDefinitionNode(def) =>
      [Punct(Function, line), Token(Identifier, def.name, line)] + ParamTokens(def.params, 0, line)
      + ReturnTokens(def.returnType, line) + Braced(def.body, line)
    case CallStatement(name, args, _) => Printed(FunctionCallNode(name, args, line), 5, line)
    case ReturnNode(value, _) => [Punct(Return, line)] + Printed(value, 1, line) + [Punct(Semicolon, line)]
    case IfElseNode(cond, block, _, _, _) =>
      [Punct(If, line)] + Printed(cond, 1, line) + Braced(block, line) + ElseTokens(s, 0, line)
    case WhileNode(cond, block, _) => [Punct(While, line)] + Printed(cond, 2, line) + Braced(block, line)
  }

  /** The `else if` branches of an if statement from index `i` on, then its `else`. */
  function ElseTokens(s: Stmt, i: nat, line: nat): (ts: seq<Token>)
    requires s.IfElseNode?
    decreases s, 1, |s.elseIfs| - i
  {
    if i < |s.elseIfs| then
      [Punct(Else, line), Punct(If, line)] + Printed(s.elseIfs[i].cond, 1, line) + Braced(s.elseIfs[i].block, line)
      + ElseTokens(s, i + 1, line)
    else if s.elseBlock.None? then []
    else [Punct(Else, line)] + Braced(s.elseBlock.value.block, line)
  }

  /** A block between braces. */
  function Braced(b: Program, line: nat): (ts: seq<Token>)
    decreases b, 1, 0
  {
    [Punct(OpenBrace, line)] + BlockTokens(b, 0, line) + [Punct(CloseBrace, line)]
  }

  /** The statements of a block from index `i` on. */
  function BlockTokens(b: Program, i: nat, line: nat): (ts: seq<Token>)
    decreases b, 0, |b.statements| - i
  {
    if i >= |b.statements| then [] else StmtTokens(b.statements[i], line) + BlockTokens(b, i + 1, line)
  }

  /** The tokens of a program. */
  function PrintedProgram(p: Program, line: nat): seq<Token> {
    BlockTokens(p, 0, line)
  }

  /** The annotation of parameter `k` was read from the third token of the parameter,
      the parameters starting at `first`. */
  predicate ParamsAnchored(params: seq<Param>, first: nat) {
    forall k :: 0 <= k < |params| ==> params[k].paramType.ref == first + 3 * k + 2
  }

  /** A return annotation was read from the token after `::`, which sits at `at`, or it
      is the implicit `none` of the definition whose `fn` is at `fnAt`. */
  predicate ReturnAnchored(t: TypeAnnotation, fnAt: nat, at: nat) {
    if t.name == "none" then t.ref == fnAt else t.ref == at + 1
  }

  /** The statements the parser builds from the tokens of `StmtTokens(s, line)` when they
      start at index `at`: every node on `line`, expressions printable, each annotation
      carrying the index of its token, and a `print` with at least one argument. */
  predicate PrintableStmt(s: Stmt, line: nat, at: nat)
    decreases s, 2, 0
  {
    match s
    case VariableDeclarationNode(_, t, value, l) => l == line && t.ref == at + 2 && Printable(value, line)
    case AssignmentNode(_, value, l) => l == line && Printable(value, line)
    case PrintNode(args, l) => l == line && args != [] && Printable(FunctionCallNode("print", args, line), line)
    case FunctionDefinitionNode(def) =>
      var after := at + 2 + 3 * |def.params|;
      && def.line == line && ParamsAnchored(def.params, at + 2) && ReturnAnchored(def.returnType, at, after)
      && PrintableBraced(def.body, line, after + |ReturnTokens(def.returnType, line)|)
    case CallStatement(name, args, l) => l == line && Printable(FunctionCallNode(name, args, line), line)
    case ReturnNode(value, l) => l == line && Printable(value, line)
    case IfElseNode(cond, block, l, _, _) =>
      var blockAt := at + 1 + |Printed(cond, 1, line)|;
      && l == line && Printable(cond, line) && PrintableBraced(block, line, blockAt)
      && PrintableElse(s, 0, line, blockAt + |Braced(block, line)|)
    case WhileNode(cond, block, l) =>
      l == line && Printable(cond, line) && PrintableBraced(block, line, at + 1 + |Printed(cond, 2, line)|)
  }

  /** The `else` part of an if statement, printed from index `at`. */
  predicate PrintableElse(s: Stmt, i: nat, line: nat, at: nat)
    requires s.IfElseNode?
    decreases s, 1, |s.elseIfs| - i
  {
    if i < |s.elseIfs| then
      var blockAt := at + 2 + |Printed(s.elseIfs[i].cond, 1, line)|;
      && s.elseIfs[i].line == line && Printable(s.elseIfs[i].cond, line)
      && PrintableBraced(s.elseIfs[i].block, line, blockAt)
      && PrintableElse(s, i + 1, line, blockAt + |Braced(s.elseIfs[i].block, line)|)
    else
      s.elseBlock.Some? ==> s.elseBlock.value.line == line && PrintableBraced(s.elseBlock.value.block, line, at + 1)
  }

  /** A block printed between braces, the opening one at `at`. */
  predicate PrintableBraced(b: Program, line: nat, at: nat)
    decreases b, 1, 0
  {
    PrintableBlock(b, 0, line, at + 1)
  }

  /** The statements of a block from index `i` on, printed from `at`. */
  predicate PrintableBlock(b: Program, i: nat, line: nat, at: nat)
    decreases b, 0, |b.statements| - i
  {
    i >= |b.statements|
    || (PrintableStmt(b.statements[i], line, at) && PrintableBlock(b, i + 1, line, at + |StmtTokens(b.statements[i], line)|))
  }

  /** Each position of a placed token sequence holds the token of the same index. */
  lemma OccupiesAt(ts: seq<Token>, p: nat, toks: seq<Token>)
    requires Occupies(ts, p, toks)
    ensures p + |toks| <= |ts| && forall k :: 0 <= k < |toks| ==> ts[p + k] == toks[k]
  {
    OccupiesSlice(ts, p, toks);
    forall k | 0 <= k < |toks|
      ensures ts[p + k] == toks[k]
    {
      assert ts[p..p + |toks|][k] == ts[p + k];
    }
  }

  // Placed sequences taken apart. Each lemma names the sequence and its parts
  // separately, so that a caller proves only the equation of its own tokens.

  /** The two parts of a placed sequence are placed one after the other. */
  lemma Split(ts: seq<Token>, p: nat, toks: seq<Token>, a: seq<Token>, b: seq<Token>)
    requires Occupies(ts, p, toks) && toks == a + b
    ensures Occupies(ts, p, a) && Occupies(ts, p + |a|, b)
  {
    SliceParts(ts, p, a, b);
  }

  /** A placed sequence that is not empty starts with its first token. */
  lemma FirstOf(ts: seq<Token>, p: nat, toks: seq<Token>)
    requires Occupies(ts, p, toks) && |toks| > 0
    ensures p < |ts| && ts[p] == toks[0]
  {
  }

  /** The leading token of a placed sequence. */
  lemma LeadOne(ts: seq<Token>, p: nat, toks: seq<Token>, a: Token, rest: seq<Token>)
    requires Occupies(ts, p, toks) && toks == [a] + rest
    ensures p < |ts| && ts[p] == a && Occupies(ts, p + 1, rest)
  {
    SliceParts(ts, p, [a], rest);
  }

  /** Two leading tokens of a placed sequence. */
  lemma LeadTwo(ts: seq<Token>, p: nat, toks: seq<Token>, a: Token, b: Token, rest: seq<Token>)
    requires Occupies(ts, p, toks) && toks == [a, b] + rest
    ensures p + 1 < |ts| && ts[p] == a && ts[p + 1] == b && Occupies(ts, p + 2, rest)
  {
    SliceParts(ts, p, [a, b], rest);
    OccupiesAt(ts, p, [a, b]);
    assert ts[p + 1] == [a, b][1];
  }

  /** Three leading tokens of a placed sequence. */
  lemma LeadThree(ts: seq<Token>, p: nat, toks: seq<Token>, a: Token, b: Token, c: Token, rest: seq<Token>)
    requires Occupies(ts, p, toks) && toks == [a, b, c] + rest
    ensures p + 2 < |ts| && ts[p] == a && ts[p + 1] == b && ts[p + 2] == c && Occupies(ts, p + 3, rest)
  {
    SliceParts(ts, p, [a, b, c], rest);
    OccupiesAt(ts, p, [a, b, c]);
    assert ts[p + 1] == [a, b, c][1] && ts[p + 2] == [a, b, c][2];
  }

  /** Four leading tokens of a placed sequence. */
  lemma LeadFour(ts: seq<Token>, p: nat, toks: seq<Token>, a: Token, b: Token, c: Token, d: Token, rest: seq<Token>)
    requires Occupies(ts, p, toks) && toks == [a, b, c, d] + rest
    ensures p + 3 < |ts| && ts[p] == a && ts[p + 1] == b && ts[p + 2] == c && ts[p + 3] == d
    ensures Occupies(ts, p + 4, rest)
  {
    SliceParts(ts, p, [a, b, c, d], rest);
    OccupiesAt(ts, p, [a, b, c, d]);
    assert ts[p + 1] == [a, b, c, d][1] && ts[p + 2] == [a, b, c, d][2] && ts[p + 3] == [a, b, c, d][3];
  }

  /** The last token of a placed sequence. */
  lemma LastOne(ts: seq<Token>, p: nat, toks: seq<Token>, body: seq<Token>, z: Token)
    requires Occupies(ts, p, toks) && toks == body + [z]
    ensures Occupies(ts, p, body) && p + |body| < |ts| && ts[p + |body|] == z
  {
    SliceParts(ts, p, body, [z]);
  }

  /** A printed expression followed by a token that stops the parser is read back by the
      operator loop of its level. */
  lemma ExprReads(e: Expr, level: nat, line: nat, ts: seq<Token>, p: nat, q: nat)
    requires 1 <= level <= 4 && line != 0 && Printable(e, line)
    requires Occupies(ts, p, Printed(e, level, line)) && q == p + |Printed(e, level, line)|
    requires q < |ts| && Ends(level, ts[q].kind)
    ensures Reads(level, ts, p, e, q)
  {
    LaidIntro(e, level, line, ts, p, q);
    ParsesBack(e, level, line, ts, p, q);
  }

  /** A printed expression starts on the line it is printed on. */
  lemma {:induction false} FirstTokenLine(e: Expr, level: nat, line: nat)
    requires 1 <= level <= 5
    ensures Printed(e, level, line)[0].line == line
    decreases e
  {
    if Prec(e) >= level && (e.ArithmeticNode? || e.ConditionalNode? || e.LogicalNode?) {
      FirstTokenLine(e.left, Prec(e), line);
    }
  }

  /** A statement's first token is one of those `parseStatement` dispatches on. */
  lemma StmtFirstToken(s: Stmt, line: nat)
    ensures |StmtTokens(s, line)| > 0
    ensures StmtTokens(s, line)[0].kind in {Identifier, Print, Function, Return, If, While}
  {
    if s.CallStatement? {
      var c := FunctionCallNode(s.name, s.args, line);
      assert Prec(c) == 5;
      assert StmtTokens(s, line) == Bare(c, line);
    }
  }

  // What the statement parsers read, stated once so that the proofs below can pass the
  // facts along without unfolding the parsers.

  /** `parseStatement` at `p` reads `s` and stops at `q`. */
  predicate StatementReads(ts: seq<Token>, p: nat, s: Stmt, q: nat) {
    p <= |ts| && Statement(ts, p) == Ok((s, q))
  }

  /** The statement loop at `p`, having read `acc`, reads `stmts` and stops at `q`. */
  predicate BlockReads(ts: seq<Token>, p: nat, acc: seq<Stmt>, stmts: seq<Stmt>, q: nat) {
    p <= |ts| && Block(ts, p, acc) == Ok((stmts, q))
  }

  /** A braced block at `p` is read as `b`, and reading stops at `q`. */
  predicate BracedReads(ts: seq<Token>, p: nat, b: Program, q: nat) {
    p <= |ts| && BracedBlock(ts, p) == Ok((b, q))
  }

  /** The `else` loop at `p`, having read the branches `acc` and no `else` yet, reads
      `elseIfs` and `elseBlock` and stops at `q`. */
  predicate ElseReads(ts: seq<Token>, p: nat, acc: seq<IfBranch>, elseIfs: seq<IfBranch>, elseBlock: Option<ElseBranch>, q: nat) {
    p <= |ts| && ElseChain(ts, p, acc, None) == Ok(((elseIfs, elseBlock), q))
  }

  /** The parameter loop at `p`, having read `acc`, reads `params` and stops at `q`. */
  predicate ParametersRead(ts: seq<Token>, p: nat, acc: seq<Param>, params: seq<Param>, q: nat) {
    p <= |ts| && Parameters(ts, p, acc) == Ok((params, q))
  }

  // One step of the statement parsers each, from what the tokens hold.

  /** `parseStatement` on a statement keyword hands over to that statement's parser. */
  lemma KeywordDispatch(ts: seq<Token>, p: nat)
    requires p < |ts|
    ensures ts[p].kind == Return ==> Statement(ts, p) == ReturnStatement(ts, p + 1)
    ensures ts[p].kind == Print ==> Statement(ts, p) == PrintStatement(ts, p)
    ensures ts[p].kind == While ==> Statement(ts, p) == WhileStatement(ts, p)
    ensures ts[p].kind == If ==> Statement(ts, p) == IfStatement(ts, p)
    ensures ts[p].kind == Function ==> Statement(ts, p) == FunctionDefinition(ts, p)
  {
  }

  /** `parseStatement` on a name hands over on the token after it. */
  lemma NameDispatch(ts: seq<Token>, p: nat)
    requires p + 1 < |ts| && ts[p].kind == Identifier
    ensures ts[p + 1].kind == Colon ==> Statement(ts, p) == VariableDeclaration(ts[p].value, ts, p + 1)
    ensures ts[p + 1].kind == Assignment ==> Statement(ts, p) == AssignmentStatement(ts[p].value, ts, p + 1)
    ensures ts[p + 1].kind == OpenParen ==> Statement(ts, p) == NamedStatement(ts, p)
  {
    assert Statement(ts, p) == NamedStatement(ts, p);
  }

  /** `name : type = value ;` read from its parts. */
  lemma DeclarationStep(ts: seq<Token>, p: nat, line: nat, name: string, t: string, e: Expr, m: nat)
    requires line != 0
    requires p + 3 < |ts| && ts[p] == Token(Identifier, name, line) && ts[p + 1] == Punct(Colon, line)
    requires ts[p + 2] == Token(TypeAnnotation, t, line) && ts[p + 3].kind == Assignment
    requires Reads(1, ts, p + 4, e, m) && m < |ts| && ts[m].kind == Semicolon
    ensures StatementReads(ts, p, VariableDeclarationNode(name, Annotation(t, p + 2), e, line), m + 1)
  {
    NameDispatch(ts, p);
    assert Binary(1, ts, p + 4) == Ok((e, m));
    assert DeclaredValue(name, Annotation(t, p + 2), line, ts, p + 4)
        == Ok((VariableDeclarationNode(name, Annotation(t, p + 2), e, line), m + 1));
  }

  /** `name = value ;` read from its parts. */
  lemma AssignmentStep(ts: seq<Token>, p: nat, line: nat, name: string, e: Expr, m: nat)
    requires line != 0
    requires p + 1 < |ts| && ts[p] == Token(Identifier, name, line) && ts[p + 1] == Punct(Assignment, line)
    requires Reads(1, ts, p + 2, e, m) && m < |ts| && ts[m].kind == Semicolon
    ensures StatementReads(ts, p, AssignmentNode(name, e, line), m + 1)
  {
    NameDispatch(ts, p);
    assert Binary(1, ts, p + 2) == Ok((e, m));
    assert AssignmentStatement(name, ts, p + 1) == Ok((AssignmentNode(name, e, line), m + 1));
  }

  /** `rn value ;` read from its parts; the statement's line is that of the value. */
  lemma ReturnStep(ts: seq<Token>, p: nat, line: nat, e: Expr, m: nat)
    requires line != 0
    requires p + 1 < |ts| && ts[p].kind == Return && ts[p + 1].line == line
    requires Reads(1, ts, p + 1, e, m) && m < |ts| && ts[m].kind == Semicolon
    ensures StatementReads(ts, p, ReturnNode(e, line), m + 1)
  {
    KeywordDispatch(ts, p);
  }

  /** `print a, b, … ;` read from its parts. */
  lemma PrintStep(ts: seq<Token>, p: nat, line: nat, args: seq<Expr>, m: nat, close: nat)
    requires line != 0
    requires p < |ts| && ts[p] == Punct(Print, line) && args != []
    requires Reads(1, ts, p + 1, args[0], m) && ArgumentsRead(ts, m, [args[0]], args, close)
    requires close < |ts| && ts[close].kind == Semicolon
    ensures StatementReads(ts, p, PrintNode(args, line), close + 1)
  {
    KeywordDispatch(ts, p);
  }

  /** `name(a, b, …)` read as a statement from the call after the name. */
  lemma CallStep(ts: seq<Token>, p: nat, line: nat, name: string, args: seq<Expr>, q: nat)
    requires line != 0
    requires p + 1 < |ts| && ts[p] == Token(Identifier, name, line) && ts[p + 1] == Punct(OpenParen, line)
    requires CallReads(ts, p + 1, FunctionCallNode(name, args, line), q)
    ensures StatementReads(ts, p, CallStatement(name, args, line), q)
  {
    NameDispatch(ts, p);
    assert NamedStatement(ts, p) == Ok((CallStatement(name, args, line), q));
  }

  /** `while cond { … }` read from its parts. */
  lemma WhileStep(ts: seq<Token>, p: nat, line: nat, cond: Expr, m: nat, block: Program, q: nat)
    requires line != 0
    requires p < |ts| && ts[p] == Punct(While, line) && Reads(2, ts, p + 1, cond, m)
    requires BracedReads(ts, m, block, q)
    ensures StatementReads(ts, p, WhileNode(cond, block, line), q)
  {
    KeywordDispatch(ts, p);
  }

  /** `if cond { … }` and its `else` part read from their parts. */
  lemma IfStep(ts: seq<Token>, p: nat, line: nat, cond: Expr, m: nat, block: Program, n: nat,
               elseIfs: seq<IfBranch>, elseBlock: Option<ElseBranch>, q: nat)
    requires line != 0
    requires p < |ts| && ts[p] == Punct(If, line) && Reads(1, ts, p + 1, cond, m)
    requires BracedReads(ts, m, block, n) && ElseReads(ts, n, [], elseIfs, elseBlock, q)
    ensures StatementReads(ts, p, IfElseNode(cond, block, line, elseIfs, elseBlock), q)
  {
    KeywordDispatch(ts, p);
  }

  /** One `else if` turn of the `else` loop. */
  lemma ElseIfStep(ts: seq<Token>, p: nat, line: nat, acc: seq<IfBranch>, cond: Expr, m: nat, block: Program, n: nat,
                   elseIfs: seq<IfBranch>, elseBlock: Option<ElseBranch>, q: nat)
    requires line != 0
    requires p + 1 < |ts| && ts[p] == Punct(Else, line) && ts[p + 1] == Punct(If, line)
    requires Reads(1, ts, p + 2, cond, m) && BracedReads(ts, m, block, n)
    requires ElseReads(ts, n, acc + [IfBranch(cond, block, line)], elseIfs, elseBlock, q)
    ensures ElseReads(ts, p, acc, elseIfs, elseBlock, q)
  {
    assert ElseStep(ts, p, acc, None) == Ok(((acc + [IfBranch(cond, block, line)], None), n));
    assert ElseChain(ts, p, acc, None) == ElseChain(ts, n, acc + [IfBranch(cond, block, line)], None);
  }

  /** The bare `else` turn of the `else` loop, with no `else` after it. */
  lemma ElseBlockStep(ts: seq<Token>, p: nat, line: nat, acc: seq<IfBranch>, block: Program, q: nat)
    requires line != 0
    requires p + 1 < |ts| && ts[p] == Punct(Else, line) && ts[p + 1].kind == OpenBrace
    requires BracedReads(ts, p + 1, block, q) && !At(ts, q, Else)
    ensures ElseReads(ts, p, acc, acc, Some(ElseBranch(block, line)), q)
  {
    assert ElseStep(ts, p, acc, None) == Ok(((acc, Some(ElseBranch(block, line))), q));
  }

  /** The `else` loop stops where no `else` follows. */
  lemma ElseEndStep(ts: seq<Token>, p: nat, acc: seq<IfBranch>)
    requires p <= |ts| && !At(ts, p, Else)
    ensures ElseReads(ts, p, acc, acc, None, p)
  {
  }

  /** Taking one more element of a sequence. */
  lemma Snoc<T>(xs: seq<T>, i: nat)
    requires i < |xs|
    ensures xs[..i] + [xs[i]] == xs[..i + 1]
  {
  }

  /** One turn of the parameter loop. */
  lemma ParamStep(ts: seq<Token>, x: nat, acc: seq<Param>, params: seq<Param>, q: nat)
    requires x + 2 < |ts| && ts[x].kind == Identifier && ts[x + 1].kind == Colon && ts[x + 2].kind == TypeAnnotation
    requires ParametersRead(ts, x + 3, acc + [Param(ts[x].value, Annotation(ts[x + 2].value, x + 2))], params, q)
    ensures ParametersRead(ts, x, acc, params, q)
  {
    assert !EndsParameters(ts, x);
  }

  /** One turn of the parameter loop reads parameter `i` of `params`. */
  lemma ParamNext(ts: seq<Token>, x: nat, params: seq<Param>, i: nat, q: nat)
    requires i < |params|
    requires x + 2 < |ts| && ts[x].kind == Identifier && ts[x + 1].kind == Colon && ts[x + 2].kind == TypeAnnotation
    requires params[i] == Param(ts[x].value, Annotation(ts[x + 2].value, x + 2))
    requires ParametersRead(ts, x + 3, params[..i + 1], params, q)
    ensures ParametersRead(ts, x, params[..i], params, q)
  {
    Snoc(params, i);
    ParamStep(ts, x, params[..i], params, q);
  }

  /** The parameter loop stops at `{`, `::` or `=>`. */
  lemma ParamsEndStep(ts: seq<Token>, p: nat, acc: seq<Param>)
    requires p <= |ts| && EndsParameters(ts, p)
    ensures ParametersRead(ts, p, acc, acc, p)
  {
  }

  /** `fn name params :: type { … }` read from its parts, the body in braces. */
  lemma SignatureStep(ts: seq<Token>, pos: nat, fnPos: nat, params: seq<Param>, r: nat, t: TypeAnnotation, b: nat)
    requires ParametersRead(ts, pos, [], params, r) && r <= |ts| && ReturnAnnotation(ts, r, fnPos) == Ok((t, b))
    ensures pos <= |ts| && Signature(ts, pos, fnPos) == Ok(((params, t), b))
  {
  }

  /** `fn name params :: type { … }` read from its parts, the body in braces. */
  lemma DefinitionStep(ts: seq<Token>, p: nat, line: nat, name: string, params: seq<Param>,
                       t: TypeAnnotation, b: nat, body: Program, q: nat)
    requires line != 0
    requires p + 1 < |ts| && ts[p] == Punct(Function, line) && ts[p + 1] == Token(Identifier, name, line)
    requires Signature(ts, p + 2, p) == Ok(((params, t), b)) && At(ts, b, OpenBrace)
    requires BracedReads(ts, b, body, q)
    ensures StatementReads(ts, p, FunctionDefinitionNode(FunctionDef(name, params, t, body, line)), q)
  {
    assert FunctionBody(ts, b) == BracedBlock(ts, b);
    assert FunctionDefinition(ts, p) == Ok((FunctionDefinitionNode(FunctionDef(name, params, t, body, line)), q));
    KeywordDispatch(ts, p);
  }

  /** One turn of the statement loop of `parseProgram`. */
  lemma BlockStep(ts: seq<Token>, p: nat, acc: seq<Stmt>, s: Stmt, m: nat, stmts: seq<Stmt>, q: nat)
    requires p < |ts| && ts[p].kind != CloseBrace && StatementReads(ts, p, s, m)
    requires BlockReads(ts, m, acc + [s], stmts, q)
    ensures BlockReads(ts, p, acc, stmts, q)
  {
  }

  /** The statement loop stops at the end of the tokens or at `}`. */
  lemma BlockEndStep(ts: seq<Token>, p: nat, acc: seq<Stmt>)
    requires p == |ts| || (p < |ts| && ts[p].kind == CloseBrace)
    ensures BlockReads(ts, p, acc, acc, p)
  {
  }

  /** `{`, a block read up to `}`, `}`. */
  lemma BracedStep(ts: seq<Token>, p: nat, stmts: seq<Stmt>, q: nat)
    requires p < |ts| && ts[p].kind == OpenBrace && BlockReads(ts, p + 1, [], stmts, q)
    requires q < |ts| && ts[q].kind == CloseBrace
    ensures BracedReads(ts, p, Program(stmts), q + 1)
  {
    assert Statements(ts, p + 1) == Ok((Program(stmts), q));
    assert Expect(ts, q, CloseBrace) == Ok(q + 1);
  }

  // Where the parts of each printed statement sit.

  /** A braced block starts with `{`. */
  lemma BracedStart(b: Program, line: nat)
    ensures |Braced(b, line)| >= 2 && Braced(b, line)[0] == Punct(OpenBrace, line)
  {
  }

  /** A printed expression followed by `{` is read back by the operator loop of its
      level. */
  lemma ExprBeforeBrace(e: Expr, level: nat, line: nat, ts: seq<Token>, p: nat, b: Program, m: nat)
    requires 1 <= level <= 4 && line != 0 && Printable(e, line)
    requires Occupies(ts, p, Printed(e, level, line)) && m == p + |Printed(e, level, line)|
    requires Occupies(ts, m, Braced(b, line))
    ensures m < |ts| && ts[m] == Punct(OpenBrace, line)
    ensures Reads(level, ts, p, e, m)
  {
    BracedStart(b, line);
    OccupiesAt(ts, m, Braced(b, line));
    assert ts[m] == Braced(b, line)[0];
    ExprReads(e, level, line, ts, p, m);
  }

  /** Where the parts of a printed `name : type = value ;` sit. */
  lemma DeclarationLayout(s: Stmt, line: nat, ts: seq<Token>, p: nat) returns (m: nat)
    requires s.VariableDeclarationNode? && line != 0 && PrintableStmt(s, line, p)
    requires Occupies(ts, p, StmtTokens(s, line))
    ensures m + 1 == p + |StmtTokens(s, line)| && p + 3 < m < |ts|
    ensures ts[p] == Token(Identifier, s.name, line) && ts[p + 1] == Punct(Colon, line)
    ensures ts[p + 2] == Token(TypeAnnotation, s.varType.name, line) && ts[p + 3].kind == Assignment
    ensures Reads(1, ts, p + 4, s.value, m) && ts[m].kind == Semicolon
    ensures s == VariableDeclarationNode(s.name, Annotation(s.varType.name, p + 2), s.value, line)
  {
    var e := Printed(s.value, 1, line);
    var a, b, c, d := Token(Identifier, s.name, line), Punct(Colon, line), Token(TypeAnnotation, s.varType.name, line), Punct(Assignment, line);
    m := p + 4 + |e|;
    LastOne(ts, p, StmtTokens(s, line), [a, b, c, d] + e, Punct(Semicolon, line));
    LeadFour(ts, p, [a, b, c, d] + e, a, b, c, d, e);
    ExprReads(s.value, 1, line, ts, p + 4, m);
  }

  /** `name : type = value ;` */
  lemma DeclarationParsesBack(s: Stmt, line: nat, ts: seq<Token>, p: nat, q: nat)
    requires s.VariableDeclarationNode? && line != 0 && PrintableStmt(s, line, p)
    requires Occupies(ts, p, StmtTokens(s, line)) && q == p + |StmtTokens(s, line)|
    ensures StatementReads(ts, p, s, q)
  {
    var m := DeclarationLayout(s, line, ts, p);
    DeclarationStep(ts, p, line, s.name, s.varType.name, s.value, m);
  }

  /** Where the parts of a printed `name = value ;` sit. */
  lemma AssignmentLayout(s: Stmt, line: nat, ts: seq<Token>, p: nat) returns (m: nat)
    requires s.AssignmentNode? && line != 0 && PrintableStmt(s, line, p)
    requires Occupies(ts, p, StmtTokens(s, line))
    ensures m + 1 == p + |StmtTokens(s, line)| && p + 1 < m < |ts|
    ensures ts[p] == Token(Identifier, s.name, line) && ts[p + 1] == Punct(Assignment, line)
    ensures Reads(1, ts, p + 2, s.value, m) && ts[m].kind == Semicolon
    ensures s == AssignmentNode(s.name, s.value, line)
  {
    var e := Printed(s.value, 1, line);
    var a, b := Token(Identifier, s.name, line), Punct(Assignment, line);
    m := p + 2 + |e|;
    LastOne(ts, p, StmtTokens(s, line), [a, b] + e, Punct(Semicolon, line));
    LeadTwo(ts, p, [a, b] + e, a, b, e);
    ExprReads(s.value, 1, line, ts, p + 2, m);
  }

  /** `name = value ;` */
  lemma AssignmentParsesBack(s: Stmt, line: nat, ts: seq<Token>, p: nat, q: nat)
    requires s.AssignmentNode? && line != 0 && PrintableStmt(s, line, p)
    requires Occupies(ts, p, StmtTokens(s, line)) && q == p + |StmtTokens(s, line)|
    ensures StatementReads(ts, p, s, q)
  {
    var m := AssignmentLayout(s, line, ts, p);
    AssignmentStep(ts, p, line, s.name, s.value, m);
  }

  /** Where the parts of a printed `rn value ;` sit. */
  lemma ReturnLayout(s: Stmt, line: nat, ts: seq<Token>, p: nat) returns (m: nat)
    requires s.ReturnNode? && line != 0 && PrintableStmt(s, line, p)
    requires Occupies(ts, p, StmtTokens(s, line))
    ensures m + 1 == p + |StmtTokens(s, line)| && p + 1 < m < |ts|
    ensures ts[p] == Punct(Return, line) && ts[p + 1].line == line
    ensures Reads(1, ts, p + 1, s.value, m) && ts[m].kind == Semicolon
    ensures s == ReturnNode(s.value, line)
  {
    var e := Printed(s.value, 1, line);
    m := p + 1 + |e|;
    LastOne(ts, p, StmtTokens(s, line), [Punct(Return, line)] + e, Punct(Semicolon, line));
    LeadOne(ts, p, [Punct(Return, line)] + e, Punct(Return, line), e);
    FirstTokenLine(s.value, 1, line);
    FirstOf(ts, p + 1, e);
    ExprReads(s.value, 1, line, ts, p + 1, m);
  }

  /** `rn value ;` */
  lemma ReturnParsesBack(s: Stmt, line: nat, ts: seq<Token>, p: nat, q: nat)
    requires s.ReturnNode? && line != 0 && PrintableStmt(s, line, p)
    requires Occupies(ts, p, StmtTokens(s, line)) && q == p + |StmtTokens(s, line)|
    ensures StatementReads(ts, p, s, q)
  {
    var m := ReturnLayout(s, line, ts, p);
    ReturnStep(ts, p, line, s.value, m);
  }

  /** Where the parts of a printed `print a, b, … ;` sit. */
  lemma PrintLayout(s: Stmt, line: nat, ts: seq<Token>, p: nat) returns (close: nat)
    requires s.PrintNode? && line != 0 && PrintableStmt(s, line, p)
    requires Occupies(ts, p, StmtTokens(s, line))
    ensures close + 1 == p + |StmtTokens(s, line)| && close < |ts|
    ensures ts[p] == Punct(Print, line) && ts[close] == Punct(Semicolon, line)
    ensures var w := FunctionCallNode("print", s.args, line);
      && s.args != [] && Printable(w, line)
      && Occupies(ts, p + 1, ArgumentList(w, line)) && close == p + 1 + |ArgumentList(w, line)|
    ensures s == PrintNode(s.args, line)
  {
    var list := ArgumentList(FunctionCallNode("print", s.args, line), line);
    close := p + 1 + |list|;
    LastOne(ts, p, StmtTokens(s, line), [Punct(Print, line)] + list, Punct(Semicolon, line));
    LeadOne(ts, p, [Punct(Print, line)] + list, Punct(Print, line), list);
  }

  /** The arguments of a printed `print`, up to its `;`, are read back as the first
      expression and then the comma loop. */
  lemma PrintArgumentsParseBack(w: Expr, line: nat, ts: seq<Token>, p: nat, close: nat) returns (m: nat)
    requires w.FunctionCallNode? && w.args != [] && line != 0 && Printable(w, line)
    requires Occupies(ts, p + 1, ArgumentList(w, line)) && close == p + 1 + |ArgumentList(w, line)|
    requires close < |ts| && ts[close] == Punct(Semicolon, line)
    ensures Reads(1, ts, p + 1, w.args[0], m) && ArgumentsRead(ts, m, [w.args[0]], w.args, close)
  {
    ArgumentListTokens(w, line);
    m := FirstSplit(w, line, ts, p, close);
    ArgumentEnd(w, 1, line, ts, m, close);
    ExprReads(w.args[0], 1, line, ts, p + 1, m);
    CommaLaidIntro(w, 1, line, ts, m, close);
    CommaArgumentsParseBack(w, 1, line, ts, m, close);
  }

  /** `print a, b, … ;` */
  lemma PrintParsesBack(s: Stmt, line: nat, ts: seq<Token>, p: nat, q: nat)
    requires s.PrintNode? && line != 0 && PrintableStmt(s, line, p)
    requires Occupies(ts, p, StmtTokens(s, line)) && q == p + |StmtTokens(s, line)|
    ensures StatementReads(ts, p, s, q)
  {
    var close := PrintLayout(s, line, ts, p);
    var m := PrintArgumentsParseBack(FunctionCallNode("print", s.args, line), line, ts, p, close);
    PrintStep(ts, p, line, s.args, m, close);
  }

  /** Where the parts of a printed call statement sit. */
  lemma CallStatementLayout(s: Stmt, line: nat, ts: seq<Token>, p: nat) returns (close: nat)
    requires s.CallStatement? && line != 0 && PrintableStmt(s, line, p)
    requires Occupies(ts, p, StmtTokens(s, line))
    ensures p + 1 < close && close + 1 == p + |StmtTokens(s, line)| && close < |ts|
    ensures ts[p] == Token(Identifier, s.name, line) && ts[p + 1] == Punct(OpenParen, line)
    ensures CallLaid(FunctionCallNode(s.name, s.args, line), line, ts, p + 1, close)
    ensures s == CallStatement(s.name, s.args, line)
  {
    var c := FunctionCallNode(s.name, s.args, line);
    var a, b := Token(Identifier, s.name, line), Punct(OpenParen, line);
    var list := ArgumentList(c, line);
    assert Prec(c) == 5;
    assert StmtTokens(s, line) == Bare(c, line) == [a, b] + list + [Punct(CloseParen, line)];
    close := p + 2 + |list|;
    LastOne(ts, p, StmtTokens(s, line), [a, b] + list, Punct(CloseParen, line));
    LeadTwo(ts, p, [a, b] + list, a, b, list);
  }

  /** `name(a, b, …)`: a call statement ends at its closing parenthesis. */
  lemma CallStatementParsesBack(s: Stmt, line: nat, ts: seq<Token>, p: nat, q: nat)
    requires s.CallStatement? && line != 0 && PrintableStmt(s, line, p)
    requires Occupies(ts, p, StmtTokens(s, line)) && q == p + |StmtTokens(s, line)|
    ensures StatementReads(ts, p, s, q)
  {
    var close := CallStatementLayout(s, line, ts, p);
    CallParsesBack(FunctionCallNode(s.name, s.args, line), line, ts, p + 1, close);
    CallStep(ts, p, line, s.name, s.args, q);
  }

  /** Where the parts of a printed `while cond { … }` sit. */
  lemma WhileLayout(s: Stmt, line: nat, ts: seq<Token>, p: nat) returns (m: nat)
    requires s.WhileNode? && line != 0 && PrintableStmt(s, line, p)
    requires Occupies(ts, p, StmtTokens(s, line))
    ensures p < |ts| && ts[p] == Punct(While, line) && Reads(2, ts, p + 1, s.cond, m)
    ensures Occupies(ts, m, Braced(s.block, line)) && m + |Braced(s.block, line)| == p + |StmtTokens(s, line)|
    ensures PrintableBraced(s.block, line, m) && s == WhileNode(s.cond, s.block, line)
  {
    var e := Printed(s.cond, 2, line);
    m := p + 1 + |e|;
    Split(ts, p, StmtTokens(s, line), [Punct(While, line)] + e, Braced(s.block, line));
    LeadOne(ts, p, [Punct(While, line)] + e, Punct(While, line), e);
    ExprBeforeBrace(s.cond, 2, line, ts, p + 1, s.block, m);
  }

  /** `while cond { … }` */
  lemma {:induction false} WhileParsesBack(s: Stmt, line: nat, ts: seq<Token>, p: nat, q: nat)
    requires s.WhileNode? && line != 0 && PrintableStmt(s, line, p)
    requires Occupies(ts, p, StmtTokens(s, line)) && q == p + |StmtTokens(s, line)|
    ensures StatementReads(ts, p, s, q)
    decreases s, 2, 0
  {
    var m := WhileLayout(s, line, ts, p);
    BracedParsesBack(s.block, line, ts, m, q);
    WhileStep(ts, p, line, s.cond, m, s.block, q);
  }

  /** Where the parts of a printed `if cond { … } else …` sit. */
  lemma IfLayout(s: Stmt, line: nat, ts: seq<Token>, p: nat) returns (m: nat, n: nat)
    requires s.IfElseNode? && line != 0 && PrintableStmt(s, line, p)
    requires Occupies(ts, p, StmtTokens(s, line))
    ensures p < |ts| && ts[p] == Punct(If, line) && Reads(1, ts, p + 1, s.cond, m)
    ensures Occupies(ts, m, Braced(s.ifBlock, line)) && n == m + |Braced(s.ifBlock, line)|
    ensures PrintableBraced(s.ifBlock, line, m) && PrintableElse(s, 0, line, n)
    ensures Occupies(ts, n, ElseTokens(s, 0, line)) && n + |ElseTokens(s, 0, line)| == p + |StmtTokens(s, line)|
    ensures s == IfElseNode(s.cond, s.ifBlock, line, s.elseIfs, s.elseBlock)
  {
    var e := Printed(s.cond, 1, line);
    var body := Braced(s.ifBlock, line);
    m := p + 1 + |e|;
    n := m + |body|;
    Split(ts, p, StmtTokens(s, line), [Punct(If, line)] + e + body, ElseTokens(s, 0, line));
    Split(ts, p, [Punct(If, line)] + e + body, [Punct(If, line)] + e, body);
    LeadOne(ts, p, [Punct(If, line)] + e, Punct(If, line), e);
    ExprBeforeBrace(s.cond, 1, line, ts, p + 1, s.ifBlock, m);
  }

  /** `if cond { … }` followed by its `else if` branches and its `else`. */
  lemma {:induction false} IfParsesBack(s: Stmt, line: nat, ts: seq<Token>, p: nat, q: nat)
    requires s.IfElseNode? && line != 0 && PrintableStmt(s, line, p)
    requires Occupies(ts, p, StmtTokens(s, line)) && q == p + |StmtTokens(s, line)| && !At(ts, q, Else)
    ensures StatementReads(ts, p, s, q)
    decreases s, 2, 0
  {
    var m, n := IfLayout(s, line, ts, p);
    BracedParsesBack(s.ifBlock, line, ts, m, n);
    ElseParsesBack(s, 0, line, ts, n, q);
    assert s.elseIfs[..0] == [];
    IfStep(ts, p, line, s.cond, m, s.ifBlock, n, s.elseIfs, s.elseBlock, q);
  }

  /** Where the parts of a printed `else if cond { … }` sit. */
  lemma ElseIfLayout(s: Stmt, i: nat, line: nat, ts: seq<Token>, p: nat) returns (m: nat, n: nat)
    requires s.IfElseNode? && i < |s.elseIfs| && line != 0 && Printable(s.elseIfs[i].cond, line)
    requires Occupies(ts, p, ElseTokens(s, i, line))
    ensures p + 1 < |ts| && ts[p] == Punct(Else, line) && ts[p + 1] == Punct(If, line)
    ensures m == p + 2 + |Printed(s.elseIfs[i].cond, 1, line)| && Reads(1, ts, p + 2, s.elseIfs[i].cond, m)
    ensures Occupies(ts, m, Braced(s.elseIfs[i].block, line)) && n == m + |Braced(s.elseIfs[i].block, line)|
    ensures Occupies(ts, n, ElseTokens(s, i + 1, line)) && n + |ElseTokens(s, i + 1, line)| == p + |ElseTokens(s, i, line)|
  {
    var a, b := Punct(Else, line), Punct(If, line);
    var e := Printed(s.elseIfs[i].cond, 1, line);
    var body := Braced(s.elseIfs[i].block, line);
    m := p + 2 + |e|;
    n := m + |body|;
    Split(ts, p, ElseTokens(s, i, line), [a, b] + e + body, ElseTokens(s, i + 1, line));
    Split(ts, p, [a, b] + e + body, [a, b] + e, body);
    LeadTwo(ts, p, [a, b] + e, a, b, e);
    ExprBeforeBrace(s.elseIfs[i].cond, 1, line, ts, p + 2, s.elseIfs[i].block, m);
  }

  /** What a printable `else if` branch promises about its parts. */
  lemma ElseIfPrintable(s: Stmt, i: nat, line: nat, p: nat)
    requires s.IfElseNode? && i < |s.elseIfs| && PrintableElse(s, i, line, p)
    ensures var m := p + 2 + |Printed(s.elseIfs[i].cond, 1, line)|;
      && Printable(s.elseIfs[i].cond, line) && PrintableBraced(s.elseIfs[i].block, line, m)
      && PrintableElse(s, i + 1, line, m + |Braced(s.elseIfs[i].block, line)|)
      && s.elseIfs[i] == IfBranch(s.elseIfs[i].cond, s.elseIfs[i].block, line)
  {
  }

  /** The `else` loop reads one printed `else if` branch and then the rest. */
  lemma {:induction false} ElseIfParsesBack(s: Stmt, i: nat, line: nat, ts: seq<Token>, p: nat, q: nat)
    requires s.IfElseNode? && line != 0 && i < |s.elseIfs| && PrintableElse(s, i, line, p)
    requires Occupies(ts, p, ElseTokens(s, i, line)) && q == p + |ElseTokens(s, i, line)| && !At(ts, q, Else)
    ensures ElseReads(ts, p, s.elseIfs[..i], s.elseIfs, s.elseBlock, q)
    decreases s, 1, |s.elseIfs| - i, 0
  {
    var branch := s.elseIfs[i];
    ElseIfPrintable(s, i, line, p);
    var m, n := ElseIfLayout(s, i, line, ts, p);
    BracedParsesBack(branch.block, line, ts, m, n);
    ElseParsesBack(s, i + 1, line, ts, n, q);
    Snoc(s.elseIfs, i);
    ElseIfStep(ts, p, line, s.elseIfs[..i], branch.cond, m, branch.block, n, s.elseIfs, s.elseBlock, q);
  }

  /** Where the parts of a printed `else { … }` sit. */
  lemma ElseBlockLayout(s: Stmt, line: nat, ts: seq<Token>, p: nat)
    requires s.IfElseNode? && s.elseBlock.Some? && PrintableElse(s, |s.elseIfs|, line, p)
    requires Occupies(ts, p, ElseTokens(s, |s.elseIfs|, line))
    ensures p + 1 < |ts| && ts[p] == Punct(Else, line) && ts[p + 1] == Punct(OpenBrace, line)
    ensures Occupies(ts, p + 1, Braced(s.elseBlock.value.block, line))
    ensures p + 1 + |Braced(s.elseBlock.value.block, line)| == p + |ElseTokens(s, |s.elseIfs|, line)|
    ensures PrintableBraced(s.elseBlock.value.block, line, p + 1)
    ensures s.elseBlock == Some(ElseBranch(s.elseBlock.value.block, line))
  {
    var body := Braced(s.elseBlock.value.block, line);
    LeadOne(ts, p, ElseTokens(s, |s.elseIfs|, line), Punct(Else, line), body);
    BracedStart(s.elseBlock.value.block, line);
    FirstOf(ts, p + 1, body);
  }

  /** The `else` loop reads the end of a printed if statement: a bare `else`, or
      nothing. */
  lemma {:induction false} ElseTailParsesBack(s: Stmt, line: nat, ts: seq<Token>, p: nat, q: nat)
    requires s.IfElseNode? && line != 0 && PrintableElse(s, |s.elseIfs|, line, p)
    requires Occupies(ts, p, ElseTokens(s, |s.elseIfs|, line)) && q == p + |ElseTokens(s, |s.elseIfs|, line)|
    requires !At(ts, q, Else)
    ensures ElseReads(ts, p, s.elseIfs, s.elseIfs, s.elseBlock, q)
    decreases s, 1, 0, 0
  {
    if s.elseBlock.Some? {
      var block := s.elseBlock.value.block;
      ElseBlockLayout(s, line, ts, p);
      BracedParsesBack(block, line, ts, p + 1, q);
      ElseBlockStep(ts, p, line, s.elseIfs, block, q);
    } else {
      assert ElseTokens(s, |s.elseIfs|, line) == [];
      ElseEndStep(ts, p, s.elseIfs);
    }
  }

  /** The `else` loop reads back the printed `else if` branches from index `i` on, then
      the `else`. */
  lemma {:induction false} ElseParsesBack(s: Stmt, i: nat, line: nat, ts: seq<Token>, p: nat, q: nat)
    requires s.IfElseNode? && line != 0 && i <= |s.elseIfs| && PrintableElse(s, i, line, p)
    requires Occupies(ts, p, ElseTokens(s, i, line)) && q == p + |ElseTokens(s, i, line)| && !At(ts, q, Else)
    ensures ElseReads(ts, p, s.elseIfs[..i], s.elseIfs, s.elseBlock, q)
    decreases s, 1, |s.elseIfs| - i, 1
  {
    if i < |s.elseIfs| {
      ElseIfParsesBack(s, i, line, ts, p, q);
    } else {
      assert s.elseIfs[..i] == s.elseIfs;
      ElseTailParsesBack(s, line, ts, p, q);
    }
  }

  /** Where the parts of printed parameter `i` sit: at `x`, the first parameter starting
      at `first`. */
  lemma ParamLayout(params: seq<Param>, i: nat, line: nat, ts: seq<Token>, first: nat, x: nat)
    requires i < |params| && ParamsAnchored(params, first) && x == first + 3 * i
    requires Occupies(ts, x, ParamTokens(params, i, line))
    ensures x + 2 < |ts| && ts[x].kind == Identifier && ts[x + 1].kind == Colon && ts[x + 2].kind == TypeAnnotation
    ensures params[i] == Param(ts[x].value, Annotation(ts[x + 2].value, x + 2))
    ensures Occupies(ts, x + 3, ParamTokens(params, i + 1, line))
  {
    LeadThree(ts, x, ParamTokens(params, i, line), Token(Identifier, params[i].paramName, line), Punct(Colon, line),
              Token(TypeAnnotation, params[i].paramType.name, line), ParamTokens(params, i + 1, line));
  }

  /** The parameter loop reads back the printed parameters from index `i` on, which
      start at `x`; the first parameter starts at `first` and the last ends at `end`. */
  lemma {:induction false} ParamsParseBack(params: seq<Param>, i: nat, line: nat, ts: seq<Token>, first: nat, x: nat, end: nat)
    requires i <= |params| && ParamsAnchored(params, first)
    requires x == first + 3 * i && end == first + 3 * |params|
    requires Occupies(ts, x, ParamTokens(params, i, line)) && EndsParameters(ts, end)
    ensures ParametersRead(ts, x, params[..i], params, end)
    decreases |params| - i
  {
    if i == |params| {
      assert params[..i] == params;
      ParamsEndStep(ts, x, params);
    } else {
      ParamLayout(params, i, line, ts, first, x);
      ParamsParseBack(params, i + 1, line, ts, first, x + 3, end);
      ParamNext(ts, x, params, i, end);
    }
  }

  /** Where the parts of a printed definition sit. */
  lemma DefinitionLayout(s: Stmt, line: nat, ts: seq<Token>, p: nat) returns (r: nat, b: nat)
    requires s.FunctionDefinitionNode? && line != 0 && PrintableStmt(s, line, p)
    requires Occupies(ts, p, StmtTokens(s, line))
    ensures p + 1 < |ts| && ts[p] == Punct(Function, line) && ts[p + 1] == Token(Identifier, s.def.name, line)
    ensures r == p + 2 + 3 * |s.def.params| && Occupies(ts, p + 2, ParamTokens(s.def.params, 0, line))
    ensures ParamsAnchored(s.def.params, p + 2) && ReturnAnchored(s.def.returnType, p, r)
    ensures b == r + |ReturnTokens(s.def.returnType, line)| && Occupies(ts, r, ReturnTokens(s.def.returnType, line))
    ensures Occupies(ts, b, Braced(s.def.body, line)) && b + |Braced(s.def.body, line)| == p + |StmtTokens(s, line)|
    ensures b < |ts| && ts[b].kind == OpenBrace && PrintableBraced(s.def.body, line, b)
    ensures s == FunctionDefinitionNode(FunctionDef(s.def.name, s.def.params, s.def.returnType, s.def.body, line))
  {
    var a, c := Punct(Function, line), Token(Identifier, s.def.name, line);
    var params := ParamTokens(s.def.params, 0, line);
    var ret := ReturnTokens(s.def.returnType, line);
    var body := Braced(s.def.body, line);
    r := p + 2 + |params|;
    b := r + |ret|;
    Split(ts, p, StmtTokens(s, line), [a, c] + params + ret, body);
    Split(ts, p, [a, c] + params + ret, [a, c] + params, ret);
    LeadTwo(ts, p, [a, c] + params, a, c, params);
    BracedStart(s.def.body, line);
    FirstOf(ts, b, body);
  }

  /** The return annotation of a printed definition whose `fn` is at `p`, followed by
      the body's `{`. */
  lemma ReturnTypeParsesBack(t: TypeAnnotation, p: nat, line: nat, ts: seq<Token>, r: nat, b: nat)
    requires ReturnAnchored(t, p, r) && b == r + |ReturnTokens(t, line)|
    requires Occupies(ts, r, ReturnTokens(t, line)) && b < |ts| && ts[b].kind == OpenBrace
    ensures EndsParameters(ts, r)
    ensures ReturnAnnotation(ts, r, p) == Ok((t, b))
  {
    if t.name != "none" {
      OccupiesAt(ts, r, ReturnTokens(t, line));
      assert ts[r] == ReturnTokens(t, line)[0] && ts[r + 1] == ReturnTokens(t, line)[1];
    }
  }

  /** `fn name params :: type { … }`, the return annotation left out when it is `none`. */
  lemma {:induction false} DefinitionParsesBack(s: Stmt, line: nat, ts: seq<Token>, p: nat, q: nat)
    requires s.FunctionDefinitionNode? && line != 0 && PrintableStmt(s, line, p)
    requires Occupies(ts, p, StmtTokens(s, line)) && q == p + |StmtTokens(s, line)|
    ensures StatementReads(ts, p, s, q)
    decreases s, 2, 0
  {
    var def := s.def;
    var r, b := DefinitionLayout(s, line, ts, p);
    ReturnTypeParsesBack(def.returnType, p, line, ts, r, b);
    ParamsParseBack(def.params, 0, line, ts, p + 2, p + 2, r);
    assert def.params[..0] == [];
    SignatureStep(ts, p + 2, p, def.params, r, def.returnType, b);
    BracedParsesBack(def.body, line, ts, b, q);
    DefinitionStep(ts, p, line, def.name, def.params, def.returnType, b, def.body, q);
  }

  /** Reading a printed statement: `parseStatement` returns it and stops right after it,
      provided no `else` follows. */
  lemma {:induction false} StmtParsesBack(s: Stmt, line: nat, ts: seq<Token>, p: nat, q: nat)
    requires line != 0 && PrintableStmt(s, line, p)
    requires Occupies(ts, p, StmtTokens(s, line)) && q == p + |StmtTokens(s, line)| && !At(ts, q, Else)
    ensures StatementReads(ts, p, s, q)
    decreases s, 3, 0
  {
    match s
    case VariableDeclarationNode(_, _, _, _) => DeclarationParsesBack(s, line, ts, p, q);
    case AssignmentNode(_, _, _) => AssignmentParsesBack(s, line, ts, p, q);
    case PrintNode(_, _) => PrintParsesBack(s, line, ts, p, q);
    case FunctionDefinitionNode(_) => DefinitionParsesBack(s, line, ts, p, q);
    case CallStatement(_, _, _) => CallStatementParsesBack(s, line, ts, p, q);
    case ReturnNode(_, _) => ReturnParsesBack(s, line, ts, p, q);
    case IfElseNode(_, _, _, _, _) => IfParsesBack(s, line, ts, p, q);
    case WhileNode(_, _, _) => WhileParsesBack(s, line, ts, p, q);
  }

  /** Where the first statement of a printed block from `i` on ends, and what follows
      it: the next statement, or the `}` or end of tokens after the block. */
  lemma BlockLayout(b: Program, i: nat, line: nat, ts: seq<Token>, p: nat, q: nat) returns (m: nat)
    requires i < |b.statements| && PrintableBlock(b, i, line, p) && Occupies(ts, p, BlockTokens(b, i, line))
    requires q == p + |BlockTokens(b, i, line)| && (q == |ts| || (q < |ts| && ts[q].kind == CloseBrace))
    ensures m == p + |StmtTokens(b.statements[i], line)| && m + |BlockTokens(b, i + 1, line)| == q
    ensures Occupies(ts, p, StmtTokens(b.statements[i], line)) && Occupies(ts, m, BlockTokens(b, i + 1, line))
    ensures PrintableStmt(b.statements[i], line, p) && PrintableBlock(b, i + 1, line, m)
    ensures p < |ts| && ts[p].kind != CloseBrace && !At(ts, m, Else)
  {
    var st := StmtTokens(b.statements[i], line);
    var rest := BlockTokens(b, i + 1, line);
    m := p + |st|;
    assert BlockTokens(b, i, line) == st + rest;
    SliceParts(ts, p, st, rest);
    StmtFirstToken(b.statements[i], line);
    if i + 1 < |b.statements| {
      StmtFirstToken(b.statements[i + 1], line);
      assert rest[0] == StmtTokens(b.statements[i + 1], line)[0];
    }
  }

  /** Reading a printed block from its statement `i` on, up to a `}` or the end of the
      tokens. */
  lemma {:induction false} BlockParsesBack(b: Program, i: nat, line: nat, ts: seq<Token>, p: nat, q: nat)
    requires line != 0 && i <= |b.statements| && PrintableBlock(b, i, line, p)
    requires Occupies(ts, p, BlockTokens(b, i, line)) && q == p + |BlockTokens(b, i, line)|
    requires q == |ts| || (q < |ts| && ts[q].kind == CloseBrace)
    ensures BlockReads(ts, p, b.statements[..i], b.statements, q)
    decreases b, 0, |b.statements| - i
  {
    if i == |b.statements| {
      assert b.statements[..i] == b.statements;
      BlockEndStep(ts, p, b.statements);
    } else {
      var s := b.statements[i];
      var m := BlockLayout(b, i, line, ts, p, q);
      StmtParsesBack(s, line, ts, p, m);
      BlockParsesBack(b, i + 1, line, ts, m, q);
      Snoc(b.statements, i);
      BlockStep(ts, p, b.statements[..i], s, m, b.statements, q);
    }
  }

  /** Where the parts of a printed braced block sit. */
  lemma BracedLayout(b: Program, line: nat, ts: seq<Token>, p: nat, q: nat)
    requires Occupies(ts, p, Braced(b, line)) && q == p + |Braced(b, line)|
    ensures p < |ts| && ts[p] == Punct(OpenBrace, line) && Occupies(ts, p + 1, BlockTokens(b, 0, line))
    ensures q - 1 == p + 1 + |BlockTokens(b, 0, line)| && q - 1 < |ts| && ts[q - 1] == Punct(CloseBrace, line)
  {
    var inner := BlockTokens(b, 0, line);
    LastOne(ts, p, Braced(b, line), [Punct(OpenBrace, line)] + inner, Punct(CloseBrace, line));
    LeadOne(ts, p, [Punct(OpenBrace, line)] + inner, Punct(OpenBrace, line), inner);
  }

  /** Reading a printed block between braces. */
  lemma {:induction false} BracedParsesBack(b: Program, line: nat, ts: seq<Token>, p: nat, q: nat)
    requires line != 0 && PrintableBraced(b, line, p)
    requires Occupies(ts, p, Braced(b, line)) && q == p + |Braced(b, line)|
    ensures BracedReads(ts, p, b, q)
    decreases b, 1, 1
  {
    BracedLayout(b, line, ts, p, q);
    BracedInsideParsesBack(b, line, ts, p, q);
  }

  /** Reading a printed block between braces, from where its parts sit. */
  lemma {:induction false} BracedInsideParsesBack(b: Program, line: nat, ts: seq<Token>, p: nat, q: nat)
    requires line != 0 && PrintableBraced(b, line, p)
    requires p < |ts| && ts[p] == Punct(OpenBrace, line) && Occupies(ts, p + 1, BlockTokens(b, 0, line))
    requires q - 1 == p + 1 + |BlockTokens(b, 0, line)| && q - 1 < |ts| && ts[q - 1] == Punct(CloseBrace, line)
    ensures BracedReads(ts, p, b, q)
    decreases b, 1, 0
  {
    BlockParsesBack(b, 0, line, ts, p + 1, q - 1);
    assert b.statements[..0] == [];
    BracedStep(ts, p, b.statements, q - 1);
  }

  /** The parser reads a printed program back as the same program. */
  lemma ProgramRoundTrip(prog: Program, line: nat)
    requires line != 0 && PrintableBlock(prog, 0, line, 0)
    ensures Parse(PrintedProgram(prog, line)) == Ok(prog)
  {
    var ts := PrintedProgram(prog, line);
    assert Occupies(ts, 0, ts) by {
      OccupiesSlice(ts, 0, ts);
      assert ts[0..|ts|] == ts;
    }
    BlockParsesBack(prog, 0, line, ts, 0, |ts|);
    assert prog.statements[..0] == [];
    assert Statements(ts, 0) == Ok((prog, |ts|));
  }
}
