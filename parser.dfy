/** The parser class of src/parser/Parser.ts: a cursor over the token sequence and the
    current line, advanced by recursive-descent methods. Every method is proved to
    build exactly the node, consume exactly the tokens and raise exactly the error that
    the matching function of `Grammar` describes. */
module Parsing {

  import opened Base
  import opened Tokens
  import opened Numerals
  import opened Ast
  import opened Grammar

  class Parser {
    /** The tokens; the source shifts them off an array, the model moves `pos`. */
    const tokens: seq<Token>
    /** Index of the current token; `|tokens|` when there is none. */
    var pos: nat
    var currentLine: nat

    ghost predicate Valid()
      reads this
    {
      pos <= |tokens| && currentLine == LineAt(tokens, pos)
    }

    /** The method's result and the cursor after it are those the specification gives. */
    ghost predicate Agrees<T>(r: Result<T, ParseError>, spec: Parsed<T>)
      reads this
    {
      match spec
      case Ok((node, next)) => r == Ok(node) && pos == next
      case Err(e) => r == Err(e)
    }

    constructor(ts: seq<Token>)
      ensures Valid() && tokens == ts && pos == 0
    {
      tokens := ts;
      pos := 0;
      currentLine := if |ts| > 0 && ts[0].line != 0 then ts[0].line else 0;
    }

    /** `advance`: the next token becomes current; the current line follows it unless
        its line is 0. */
    method Advance()
      requires Valid() && pos < |tokens|
      modifies this
      ensures Valid() && pos == old(pos) + 1
    {
      pos := pos + 1;
      if pos < |tokens| && tokens[pos].line != 0 {
        currentLine := tokens[pos].line;
      }
    }

    /** `expect`: consume a token of kind `k`, or fail with the current line. */
    method Expect(k: TokenType) returns (r: Result<(), ParseError>)
      requires Valid()
      modifies this
      ensures Valid()
      ensures r.Ok? <==> At(tokens, old(pos), k)
      ensures r.Ok? ==> pos == old(pos) + 1
      ensures r.Err? ==> pos == old(pos) && r.error == SyntaxError(LineAt(tokens, pos))
    {
      if !(pos < |tokens| && tokens[pos].kind == k) {
        return Err(SyntaxError(currentLine));
      }
      Advance();
      return Ok(());
    }

    /** `parseExpression`, `parseConditionalExpression`, `parseArithmeticExpression`
        and `parseTerm`, one per level. */
    method ParseBinary(level: Level) returns (r: Result<Expr, ParseError>)
      requires Valid()
      modifies this
      ensures Valid() && Agrees(r, Binary(level, tokens, old(pos)))
      decreases |tokens| - pos, 2 * (5 - level) + 1
    {
      var left :- ParseOperand(level);
      while pos < |tokens| && IsOperator(level, tokens[pos].kind)
        invariant Valid() && old(pos) < pos
        invariant Binary(level, tokens, old(pos)) == Tail(level, tokens, pos, left)
        decreases |tokens| - pos
      {
        var op := tokens[pos].kind;
        Advance();
        var right :- ParseOperand(level);
        left := Combine(op, left, right);
      }
      return Ok(left);
    }

    method ParseOperand(level: Level) returns (r: Result<Expr, ParseError>)
      requires Valid()
      modifies this
      ensures Valid() && Agrees(r, Operand(level, tokens, old(pos)))
      decreases |tokens| - pos, 2 * (5 - level)
    {
      if level == 4 {
        r := ParseFactor();
      } else {
        r := ParseBinary(level + 1);
      }
    }

    /** `parseFactor`. */
    method ParseFactor() returns (r: Result<Expr, ParseError>)
      requires Valid()
      modifies this
      ensures Valid() && Agrees(r, Factor(tokens, old(pos)))
      decreases |tokens| - pos, 1
    {
      if pos == |tokens| {
        return Err(SyntaxError(0));
      }
      var t := tokens[pos];
      if t.kind == Identifier {
        r := ParseNamedFactor();
      } else if t.kind == String {
        Advance();
        return Ok(Lit(StringNode(Unquote(t.value))));
      } else if t.kind == Number {
        Advance();
        if !IsDecimal(t.value) {
          return Err(Unrepresentable(t.line));
        }
        return Ok(Lit(NumberNode(DecimalValue(t.value))));
      } else if t.kind == Boolean {
        Advance();
        return Ok(Lit(BooleanNode(t.value == "true")));
      } else if t.kind == Minus {
        Advance();
        var operand :- ParseFactor();
        return Ok(NegationNode(operand));
      } else if t.kind == OpenParen {
        r := ParseParenthesised();
      } else {
        return Err(SyntaxError(t.line));
      }
    }

    /** The `IDENTIFIER` case of `parseFactor`. */
    method ParseNamedFactor() returns (r: Result<Expr, ParseError>)
      requires Valid() && At(tokens, pos, Identifier)
      modifies this
      ensures Valid() && Agrees(r, NamedFactor(tokens, old(pos)))
      decreases |tokens| - pos, 0
    {
      var name := tokens[pos].value;
      Advance();
      if pos == |tokens| {
        return Err(NullAccess);
      }
      if tokens[pos].kind == OpenParen {
        r := ParseFunctionCall(name);
      } else {
        r := Ok(IdentifierNode(name));
      }
    }

    /** The `OPEN_PAREN` case of `parseFactor`. */
    method ParseParenthesised() returns (r: Result<Expr, ParseError>)
      requires Valid() && At(tokens, pos, OpenParen)
      modifies this
      ensures Valid() && Agrees(r, Parenthesised(tokens, old(pos)))
      decreases |tokens| - pos, 0
    {
      Advance();
      var expression :- ParseBinary(1);
      var _ :- Expect(CloseParen);
      return Ok(expression);
    }

    /** `parseFunctionCall`, with the cursor on the opening parenthesis. */
    method ParseFunctionCall(name: string) returns (r: Result<Expr, ParseError>)
      requires Valid() && At(tokens, pos, OpenParen)
      modifies this
      ensures Valid() && Agrees(r, Call(name, tokens, old(pos)))
      decreases |tokens| - pos, 0
    {
      var line := currentLine;
      Advance();
      var args: seq<Expr> := [];
      if !At(tokens, pos, CloseParen) {
        var first :- ParseBinary(1);
        args := [first];
      }
      args :- ParseArgumentList(args);
      var _ :- Expect(CloseParen);
      return Ok(FunctionCallNode(name, args, line));
    }

    /** The comma loop of `parseFunctionCall` and `parsePrint`: while a comma is
        current, consume it and one more expression. */
    method ParseArgumentList(first: seq<Expr>) returns (r: Result<seq<Expr>, ParseError>)
      requires Valid()
      modifies this
      ensures Valid() && Agrees(r, Arguments(tokens, old(pos), first))
      decreases |tokens| - pos, 0
    {
      var args := first;
      while At(tokens, pos, Comma)
        invariant Valid() && old(pos) <= pos
        invariant Arguments(tokens, old(pos), first) == Arguments(tokens, pos, args)
        decreases |tokens| - pos
      {
        Advance();
        var arg :- ParseBinary(1);
        args := args + [arg];
      }
      return Ok(args);
    }

    /** `parseVariableDeclaration`, with the cursor on the colon after the name. */
    method ParseVariableDeclaration(name: string) returns (r: Result<Stmt, ParseError>)
      requires Valid() && At(tokens, pos, Colon)
      modifies this
      ensures Valid() && Agrees(r, VariableDeclaration(name, tokens, old(pos)))
    {
      var line := currentLine;
      Advance();
      var typePos := pos;
      var _ :- Expect(TypeAnnotation);
      var _ :- Expect(Assignment);
      var annotation := Annotation(tokens[typePos].value, typePos);
      r := ParseDeclaredValue(name, annotation, line);
    }

    method ParseDeclaredValue(name: string, annotation: TypeAnnotation, line: nat) returns (r: Result<Stmt, ParseError>)
      requires Valid()
      modifies this
      ensures Valid() && Agrees(r, DeclaredValue(name, annotation, line, tokens, old(pos)))
    {
      var value :- ParseBinary(1);
      var _ :- Expect(Semicolon);
      return Ok(VariableDeclarationNode(name, annotation, value, line));
    }

    /** `parseAssignmentVariable`, with the cursor on the `=` after the name. */
    method ParseAssignmentVariable(name: string) returns (r: Result<Stmt, ParseError>)
      requires Valid() && pos < |tokens|
      modifies this
      ensures Valid() && Agrees(r, AssignmentStatement(name, tokens, old(pos)))
    {
      var line := currentLine;
      Advance();
      var value :- ParseBinary(1);
      var _ :- Expect(Semicolon);
      return Ok(AssignmentNode(name, value, line));
    }

    /** `parsePrint`, with the cursor on `print`. */
    method ParsePrint() returns (r: Result<Stmt, ParseError>)
      requires Valid() && pos < |tokens|
      modifies this
      ensures Valid() && Agrees(r, PrintStatement(tokens, old(pos)))
    {
      var line := currentLine;
      Advance();
      var first :- ParseBinary(1);
      var args :- ParseArgumentList([first]);
      var _ :- Expect(Semicolon);
      return Ok(PrintNode(args, line));
    }

    /** `parseFunctionParameter`. */
    method ParseFunctionParameter() returns (r: Result<Param, ParseError>)
      requires Valid()
      modifies this
      ensures Valid() && Agrees(r, Parameter(tokens, old(pos)))
    {
      var paramName := if pos < |tokens| then tokens[pos].value else "";
      var _ :- Expect(Identifier);
      var _ :- Expect(Colon);
      var typePos := pos;
      var _ :- Expect(TypeAnnotation);
      return Ok(Param(paramName, Annotation(tokens[typePos].value, typePos)));
    }

    /** `parseReturn`, with the cursor on the first token of the returned expression. */
    method ParseReturn() returns (r: Result<Stmt, ParseError>)
      requires Valid()
      modifies this
      ensures Valid() && Agrees(r, ReturnStatement(tokens, old(pos)))
    {
      var line := currentLine;
      var value :- ParseBinary(1);
      var _ :- Expect(Semicolon);
      return Ok(ReturnNode(value, line));
    }

    /** `parseFunctionDefinition`, with the cursor on `fn`. */
    method ParseFunctionDefinition() returns (r: Result<Stmt, ParseError>)
      requires Valid() && At(tokens, pos, Function)
      modifies this
      ensures Valid() && Agrees(r, FunctionDefinition(tokens, old(pos)))
      decreases |tokens| - pos, 1
    {
      var fnPos := pos;
      var line := currentLine;
      Advance();
      var functionName := if pos < |tokens| then tokens[pos].value else "";
      var _ :- Expect(Identifier);
      var signature :- ParseSignature(fnPos);
      var (params, returnType) := signature;
      var body :- ParseFunctionBody();
      return Ok(FunctionDefinitionNode(FunctionDef(functionName, params, returnType, body, line)));
    }

    /** The parameter list and the optional return annotation of a definition whose
        `fn` token is at `fnPos`. */
    method ParseSignature(fnPos: nat) returns (r: Result<(seq<Param>, TypeAnnotation), ParseError>)
      requires Valid()
      modifies this
      ensures Valid() && Agrees(r, Signature(tokens, old(pos), fnPos))
    {
      var params :- ParseParameters();
      var returnType :- ParseReturnAnnotation(fnPos);
      return Ok((params, returnType));
    }

    /** The parameter loop of `parseFunctionDefinition`: parameters until `{`, `::` or
        `=>` is current. */
    method ParseParameters() returns (r: Result<seq<Param>, ParseError>)
      requires Valid()
      modifies this
      ensures Valid() && Agrees(r, Parameters(tokens, old(pos), []))
    {
      var params: seq<Param> := [];
      while !EndsParameters(tokens, pos)
        invariant Valid() && old(pos) <= pos
        invariant Parameters(tokens, old(pos), []) == Parameters(tokens, pos, params)
        decreases |tokens| - pos
      {
        var parameter :- ParseFunctionParameter();
        params := params + [parameter];
      }
      return Ok(params);
    }

    /** The optional `:: type` of a definition whose `fn` token is at `fnPos`; without
        it the return annotation is a fresh `none`. */
    method ParseReturnAnnotation(fnPos: nat) returns (r: Result<TypeAnnotation, ParseError>)
      requires Valid()
      modifies this
      ensures Valid() && Agrees(r, ReturnAnnotation(tokens, old(pos), fnPos))
    {
      if At(tokens, pos, DoubleColon) {
        Advance();
        var typePos := pos;
        var _ :- Expect(TypeAnnotation);
        return Ok(Annotation(tokens[typePos].value, typePos));
      }
      return Ok(Annotation("none", fnPos));
    }

    /** A definition's body: after `=>` a single return statement, otherwise a braced
        block. */
    method ParseFunctionBody() returns (r: Result<Program, ParseError>)
      requires Valid()
      modifies this
      ensures Valid() && Agrees(r, FunctionBody(tokens, old(pos)))
      decreases |tokens| - pos, 1
    {
      if At(tokens, pos, Arrow) {
        Advance();
        var ret :- ParseReturn();
        return Ok(Program([ret]));
      }
      r := ParseBracedBlock();
    }

    /** The `expect({)`, `parseProgram()`, `expect(})` sequence that every block
        statement uses. */
    method ParseBracedBlock() returns (r: Result<Program, ParseError>)
      requires Valid()
      modifies this
      ensures Valid() && Agrees(r, BracedBlock(tokens, old(pos)))
      decreases |tokens| - pos, 0
    {
      var _ :- Expect(OpenBrace);
      var block :- ParseProgram();
      var _ :- Expect(CloseBrace);
      return Ok(block);
    }

    /** `parseIfStatement`, with the cursor on `if`. */
    method ParseIfStatement() returns (r: Result<Stmt, ParseError>)
      requires Valid() && At(tokens, pos, If)
      modifies this
      ensures Valid() && Agrees(r, IfStatement(tokens, old(pos)))
      decreases |tokens| - pos, 1
    {
      var line := currentLine;
      Advance();
      var conditional :- ParseBinary(1);
      var ifBlock :- ParseBracedBlock();
      var branches :- ParseElseBranches();
      var (elseIfs, elseBlock) := branches;
      return Ok(IfElseNode(conditional, ifBlock, line, elseIfs, elseBlock));
    }

    /** The `else` loop of `parseIfStatement`: `else if` branches are collected in
        order, and a bare `else` replaces any earlier one. */
    method ParseElseBranches() returns (r: Result<(seq<IfBranch>, Option<ElseBranch>), ParseError>)
      requires Valid()
      modifies this
      ensures Valid() && Agrees(r, ElseChain(tokens, old(pos), [], None))
      decreases |tokens| - pos, 1
    {
      var elseIfs: seq<IfBranch> := [];
      var elseBlock: Option<ElseBranch> := None;
      while At(tokens, pos, Else)
        invariant Valid() && old(pos) <= pos
        invariant ElseChain(tokens, old(pos), [], None) == ElseChain(tokens, pos, elseIfs, elseBlock)
        decreases |tokens| - pos
      {
        var step :- ParseElseBranch(elseIfs, elseBlock);
        elseIfs, elseBlock := step.0, step.1;
      }
      return Ok((elseIfs, elseBlock));
    }

    /** One turn of the `else` loop, with the cursor on `else`. */
    method ParseElseBranch(elseIfs: seq<IfBranch>, elseBlock: Option<ElseBranch>)
      returns (r: Result<(seq<IfBranch>, Option<ElseBranch>), ParseError>)
      requires Valid() && At(tokens, pos, Else)
      modifies this
      ensures Valid() && Agrees(r, ElseStep(tokens, old(pos), elseIfs, elseBlock))
      decreases |tokens| - pos, 0
    {
      var elseLine := currentLine;
      Advance();
      if At(tokens, pos, If) {
        var ifLine := currentLine;
        Advance();
        var cond :- ParseBinary(1);
        var body :- ParseBracedBlock();
        return Ok((elseIfs + [IfBranch(cond, body, ifLine)], elseBlock));
      } else {
        var body :- ParseBracedBlock();
        return Ok((elseIfs, Some(ElseBranch(body, elseLine))));
      }
    }

    /** `parseWhileStatement`, with the cursor on `while`. */
    method ParseWhileStatement() returns (r: Result<Stmt, ParseError>)
      requires Valid() && At(tokens, pos, While)
      modifies this
      ensures Valid() && Agrees(r, WhileStatement(tokens, old(pos)))
      decreases |tokens| - pos, 1
    {
      var line := currentLine;
      Advance();
      var conditional :- ParseBinary(2);
      var body :- ParseBracedBlock();
      return Ok(WhileNode(conditional, body, line));
    }

    /** `parseStatement`. */
    method ParseStatement() returns (r: Result<Stmt, ParseError>)
      requires Valid()
      modifies this
      ensures Valid() && Agrees(r, Statement(tokens, old(pos)))
      decreases |tokens| - pos, 2
    {
      if pos == |tokens| {
        return Err(SyntaxError(0));
      }
      ghost var p0 := pos;
      match tokens[pos].kind
      case While =>
        assert Statement(tokens, p0) == WhileStatement(tokens, p0);
        r := ParseWhileStatement();
      case If =>
        assert Statement(tokens, p0) == IfStatement(tokens, p0);
        r := ParseIfStatement();
      case Function =>
        assert Statement(tokens, p0) == FunctionDefinition(tokens, p0);
        r := ParseFunctionDefinition();
      case Return =>
        assert Statement(tokens, p0) == ReturnStatement(tokens, p0 + 1);
        Advance();
        r := ParseReturn();
      case Print =>
        assert Statement(tokens, p0) == PrintStatement(tokens, p0);
        r := ParsePrint();
      case Identifier =>
        assert Statement(tokens, p0) == NamedStatement(tokens, p0);
        r := ParseNamedStatement();
      case _ => r := Err(SyntaxError(tokens[pos].line));
    }

    /** The `IDENTIFIER` case of `parseStatement`: the token after the name decides. */
    method ParseNamedStatement() returns (r: Result<Stmt, ParseError>)
      requires Valid() && At(tokens, pos, Identifier)
      modifies this
      ensures Valid() && Agrees(r, NamedStatement(tokens, old(pos)))
      decreases |tokens| - pos, 1
    {
      var identifier := tokens[pos].value;
      Advance();
      if pos == |tokens| {
        return Err(SyntaxError(0));
      }
      match tokens[pos].kind
      case Colon => r := ParseVariableDeclaration(identifier);
      case Assignment => r := ParseAssignmentVariable(identifier);
      case OpenParen =>
        var call :- ParseFunctionCall(identifier);
        return Ok(CallStatement(identifier, call.args, call.line));
      case _ => r := Err(SyntaxError(tokens[pos].line));
    }

    /** `parseProgram`: statements until the tokens run out or a `}` is current. */
    method ParseProgram() returns (r: Result<Program, ParseError>)
      requires Valid()
      modifies this
      ensures Valid() && Agrees(r, Statements(tokens, old(pos)))
      decreases |tokens| - pos, 4
    {
      var statements: seq<Stmt> := [];
      while pos < |tokens| && tokens[pos].kind != CloseBrace
        invariant Valid() && old(pos) <= pos
        invariant Block(tokens, old(pos), []) == Block(tokens, pos, statements)
        decreases |tokens| - pos
      {
        var statement :- ParseStatement();
        statements := statements + [statement];
      }
      return Ok(Program(statements));
    }

    /** `parse`. */
    method Parse() returns (r: Result<Program, ParseError>)
      requires Valid() && pos == 0
      modifies this
      ensures r == Grammar.Parse(tokens)
    {
      r := ParseProgram();
    }
  }
}
