/** The interpreter (src/interpreter/Interpreter.ts): a class over the two symbol tables,
    the output written so far and the input not yet read. Each method does what the
    function for the same step in module Semantics says: the result it returns and the
    state it leaves are that function's run from the state the method started in. */
module Interpreting {

  import opened Base
  import opened Ast
  import opened Values
  import opened Variables
  import opened Functions
  import opened Semantics

  /** The run of a whole list, given the values computed so far and the run of the rest. */
  function PrependRun<T>(vals: seq<T>, rest: Run<seq<T>>): Run<seq<T>>
  {
    Run(Prepend(vals, rest.result), rest.state)
  }

  /** What `executeStatement` makes of a statement that yields nothing. */
  function NoValue(r: Result<(), Failure>): Result<Option<LiteralNode>, Failure>
  {
    if r.Err? then Err(r.error) else Ok(None)
  }

  class Interpreter {
    const variables: VariableTable
    const functions: FunctionTable
    var output: seq<OutputEvent>
    var input: seq<string>

    /** A fresh interpreter that will read the given input lines. */
    constructor(lines: seq<string>)
      ensures Snapshot() == Start(lines)
      ensures fresh(variables) && fresh(functions)
    {
      variables := new VariableTable();
      functions := new FunctionTable();
      output := [];
      input := lines;
    }

    /** The state the semantics speaks of. */
    function Snapshot(): State
      reads this, variables, functions
    {
      State(variables.frames, functions.frames, output, input)
    }

    /** `interpret`: the statements in order, up to the first that yields a value. */
    method Interpret(fuel: nat, p: Program) returns (r: Result<Option<LiteralNode>, Failure>)
      modifies this, variables, functions
      ensures Run(r, Snapshot()) == ExecBlock(fuel, old(Snapshot()), p, 0)
      decreases fuel, p, 0
    {
      var i := 0;
      while i < |p.statements|
        invariant 0 <= i <= |p.statements|
        invariant ExecBlock(fuel, old(Snapshot()), p, 0) == ExecBlock(fuel, Snapshot(), p, i)
      {
        var value := ExecuteStatement(fuel, p.statements[i]);
        if value.Err? || value.value.Some? {
          return value;
        }
        i := i + 1;
      }
      return Ok(None);
    }

    method ExecuteStatement(fuel: nat, s: Stmt) returns (r: Result<Option<LiteralNode>, Failure>)
      modifies this, variables, functions
      ensures Run(r, Snapshot()) == ExecStmt(fuel, old(Snapshot()), s)
      decreases fuel, s, 2
    {
      match s
      case VariableDeclarationNode(_, _, _, _) =>
        var done := ExecuteVariableDeclaration(fuel, s);
        r := NoValue(done);
      case AssignmentNode(_, _, _) =>
        var done := ExecuteAssignment(fuel, s);
        r := NoValue(done);
      case PrintNode(_, _) =>
        var done := ExecutePrint(fuel, s);
        r := NoValue(done);
      case FunctionDefinitionNode(def) =>
        var done := functions.AddFunction(def);
        r := NoValue(done);
      case CallStatement(name, args, line) =>
        var value := ExecuteFunctionCall(fuel, name, args, line);
        r := if value.Err? then Err(value.error) else Ok(None);
      case ReturnNode(value, _) =>
        var v := Evaluate(fuel, value);
        r := if v.Err? then Err(v.error) else Ok(Some(v.value));
      case IfElseNode(_, _, _, _, _) =>
        var value := ExecuteIfElse(fuel, s);
        r := if value == Ok(Some(NoneNode)) then Ok(None) else value;
      case WhileNode(_, _, _) =>
        var value := ExecuteWhile(fuel, s);
        r := if value.Err? then Err(value.error) else if value.value == NoneNode then Ok(None) else Ok(Some(value.value));
    }

    /** The value must have the declared type before it is added to the current frame. */
    method ExecuteVariableDeclaration(fuel: nat, s: Stmt) returns (r: Result<(), Failure>)
      requires s.VariableDeclarationNode?
      modifies this, variables, functions
      ensures Run(NoValue(r), Snapshot()) == ExecStmt(fuel, old(Snapshot()), s)
      decreases fuel, s, 1
    {
      var value := Evaluate(fuel, s.value);
      if value.Err? {
        return Err(value.error);
      }
      if value.value.TypeOf().Name() != s.varType.name {
        return Err(Thrown(TypeError, Some(s.line)));
      }
      r := variables.AddVariable(s.name, value.value);
    }

    method ExecuteAssignment(fuel: nat, s: Stmt) returns (r: Result<(), Failure>)
      requires s.AssignmentNode?
      modifies this, variables, functions
      ensures Run(NoValue(r), Snapshot()) == ExecStmt(fuel, old(Snapshot()), s)
      decreases fuel, s, 1
    {
      var value := Evaluate(fuel, s.value);
      if value.Err? {
        return Err(value.error);
      }
      r := variables.UpdateVariableValue(s.name, value.value, s.line);
    }

    /** The arguments' values are written as one line. */
    method ExecutePrint(fuel: nat, s: Stmt) returns (r: Result<(), Failure>)
      requires s.PrintNode?
      modifies this, variables, functions
      ensures Run(NoValue(r), Snapshot()) == ExecStmt(fuel, old(Snapshot()), s)
      decreases fuel, s, 1
    {
      var values := EvaluateArguments(fuel, s.args);
      if values.Err? {
        return Err(values.error);
      }
      output := output + [Printed(HostValues(values.value))];
      return Ok(());
    }

    /** The block of a branch or loop, in a fresh frame of each table. */
    method ExecuteInScope(fuel: nat, p: Program, scope: string) returns (r: Result<LiteralNode, Failure>)
      modifies this, variables, functions
      ensures Run(r, Snapshot()) == ScopedBlock(fuel, old(Snapshot()), p)
      decreases fuel, p, 1
    {
      functions.EnterScope(scope);
      variables.EnterScope(scope);
      var value := Interpret(fuel, p);
      if value.Err? {
        return Err(value.error);
      }
      variables.ExitScope();
      functions.ExitScope();
      return Ok(Returned(value.value));
    }

    /** `executeIfElseStatement`; `None` when no block runs. */
    method ExecuteIfElse(fuel: nat, s: Stmt) returns (r: Result<Option<LiteralNode>, Failure>)
      requires s.IfElseNode?
      modifies this, variables, functions
      ensures Run(r, Snapshot()) == ExecIf(fuel, old(Snapshot()), s)
      decreases fuel, s, 1
    {
      var condition := Evaluate(fuel, s.cond);
      if condition.Err? {
        return Err(condition.error);
      }
      if Truthy(condition.value) {
        var value := ExecuteInScope(fuel, s.ifBlock, "if");
        return if value.Err? then Err(value.error) else Ok(Some(value.value));
      }
      ghost var atStart := Snapshot();
      var i := 0;
      while i < |s.elseIfs|
        invariant 0 <= i <= |s.elseIfs|
        invariant ElseIfs(fuel, atStart, s.elseIfs, 0) == ElseIfs(fuel, Snapshot(), s.elseIfs, i)
      {
        var branch := s.elseIfs[i];
        var branchCondition := Evaluate(fuel, branch.cond);
        if branchCondition.Err? {
          return Err(branchCondition.error);
        }
        if Truthy(branchCondition.value) {
          var value := ExecuteInScope(fuel, branch.block, "if");
          return if value.Err? then Err(value.error) else Ok(Some(value.value));
        }
        i := i + 1;
      }
      if s.elseBlock.Some? {
        var value := ExecuteInScope(fuel, s.elseBlock.value.block, "else");
        return if value.Err? then Err(value.error) else Ok(Some(value.value));
      }
      return Ok(None);
    }

    /** `executeWhileStatementNode`: one iteration, then the loop again by recursion, whose
        value is dropped. */
    method ExecuteWhile(fuel: nat, s: Stmt) returns (r: Result<LiteralNode, Failure>)
      requires s.WhileNode?
      modifies this, variables, functions
      ensures Run(r, Snapshot()) == ExecWhile(fuel, old(Snapshot()), s)
      decreases fuel, s, 1
    {
      var condition := Evaluate(fuel, s.cond);
      if condition.Err? {
        return condition;
      }
      var value := NoneNode;
      if Truthy(condition.value) {
        var body := ExecuteInScope(fuel, s.block, "while");
        if body.Err? {
          return body;
        }
        value := body.value;
        if value != NoneNode {
          return Ok(value);
        }
        if fuel == 0 {
          return Err(OutOfFuel);
        }
        var again := ExecuteWhile(fuel - 1, s);
        if again.Err? {
          return again;
        }
      }
      return Ok(value);
    }

    /** The arguments of a call or a `print`, left to right. */
    method EvaluateArguments(fuel: nat, args: seq<Expr>) returns (r: Result<seq<LiteralNode>, Failure>)
      modifies this, variables, functions
      ensures Run(r, Snapshot()) == EvalArgs(fuel, old(Snapshot()), args, 0)
      decreases fuel, args, 0
    {
      var values := [];
      PrependNothing(EvalArgs(fuel, Snapshot(), args, 0).result);
      var i := 0;
      while i < |args|
        invariant 0 <= i <= |args|
        invariant EvalArgs(fuel, old(Snapshot()), args, 0) == PrependRun(values, EvalArgs(fuel, Snapshot(), args, i))
      {
        var value := Evaluate(fuel, args[i]);
        if value.Err? {
          return Err(value.error);
        }
        PrependTwice(values, [value.value], EvalArgs(fuel, Snapshot(), args, i + 1).result);
        values := values + [value.value];
        i := i + 1;
      }
      assert values + [] == values;
      return Ok(values);
    }

    /** `executeFunctionCall`: a builtin of the name if there is one, otherwise the user
        function the function table resolves, run in fresh frames. */
    method ExecuteFunctionCall(fuel: nat, name: string, args: seq<Expr>, line: nat) returns (r: Result<LiteralNode, Failure>)
      modifies this, variables, functions
      ensures Run(r, Snapshot()) == EvalCall(fuel, old(Snapshot()), name, args, line)
      decreases fuel, args, 1
    {
      var values := EvaluateArguments(fuel, args);
      if values.Err? {
        return Err(values.error);
      }
      r := ExecuteCallOn(fuel, name, values.value, line, args);
    }

    /** `executeFunctionCall` once the arguments are the values `vals`. */
    method ExecuteCallOn(fuel: nat, name: string, vals: seq<LiteralNode>, line: nat, ghost args: seq<Expr>)
      returns (r: Result<LiteralNode, Failure>)
      modifies this, variables, functions
      ensures Run(r, Snapshot()) == CallOn(fuel, old(Snapshot()), name, vals, line, args)
      decreases fuel, args, 0
    {
      var builtin := BuiltinSignature(name);
      if builtin.Some? {
        r := ExecuteBuiltin(name, builtin.value, vals, line);
        return;
      }
      if name in InheritedNames {
        return Err(Thrown(TypeError, None));
      }
      var found := functions.GetFunction(name, vals);
      if found.Err? {
        return Err(found.error);
      }
      if fuel == 0 {
        return Err(OutOfFuel);
      }
      ResolveArity(functions.frames, name, vals);
      r := ExecuteUserFunction(fuel - 1, found.value, vals);
    }

    /** A builtin call: the argument count and each argument's type are checked against
        the builtin's signature before its function runs. */
    method ExecuteBuiltin(name: string, b: Builtin, vals: seq<LiteralNode>, line: nat) returns (r: Result<LiteralNode, Failure>)
      requires BuiltinSignature(name) == Some(b)
      modifies this
      ensures Run(r, Snapshot()) == CallBuiltin(old(Snapshot()), name, b, vals, line)
    {
      if |vals| < b.requiredArgs || |vals| > |b.paramsType| {
        return Err(Thrown(PlainError, Some(line)));
      }
      var i := 0;
      while i < |vals|
        invariant 0 <= i <= |vals|
        invariant forall j :: 0 <= j < i ==> vals[j].TypeOf() == b.paramsType[j]
      {
        if vals[i].TypeOf() != b.paramsType[i] {
          return Err(Thrown(PlainError, Some(line)));
        }
        i := i + 1;
      }
      r := CallHost(name, HostText(vals[0].Value()));
    }

    /** A user function's call: a fresh frame on each table, the parameters bound to the
        arguments, the body, and the declared return type checked. */
    method ExecuteUserFunction(fuel: nat, def: FunctionDef, vals: seq<LiteralNode>) returns (r: Result<LiteralNode, Failure>)
      requires |def.params| <= |vals|
      modifies this, variables, functions
      ensures Run(r, Snapshot()) == Invoke(fuel, old(Snapshot()), def, vals)
      decreases fuel, def
    {
      variables.EnterScope(def.name);
      functions.EnterScope(def.name);
      ghost var entered := Snapshot();
      var i := 0;
      while i < |def.params|
        invariant 0 <= i <= |def.params|
        invariant BindParams(entered, def.params, vals, 0) == BindParams(Snapshot(), def.params, vals, i)
      {
        var bound := variables.AddVariable(def.params[i].paramName, vals[i]);
        if bound.Err? {
          return Err(bound.error);
        }
        i := i + 1;
      }
      var value := Interpret(fuel, def.body);
      if value.Err? {
        return Err(value.error);
      }
      functions.ExitScope();
      variables.ExitScope();
      var result := Returned(value.value);
      if result.TypeOf().Name() != def.returnType.name {
        return Err(Thrown(TypeError, Some(def.line)));
      }
      return Ok(result);
    }

    /** The builtin's function on its argument's text. */
    method CallHost(name: string, arg: string) returns (r: Result<LiteralNode, Failure>)
      modifies this
      ensures Run(r, Snapshot()) == Host(old(Snapshot()), name, arg)
    {
      if name == "input" {
        output := output + [Prompted(arg)];
        if |input| == 0 {
          return Err(Unrepresentable);
        }
        r := Ok(StringNode(input[0]));
        input := input[1..];
      } else if name == "number" {
        var n := NumberOf(arg);
        r := if n.Ok? then Ok(NumberNode(n.value)) else Err(n.error);
      } else {
        r := Ok(StringNode(arg));
      }
    }

    /** `evaluateExpression`. */
    method Evaluate(fuel: nat, e: Expr) returns (r: Result<LiteralNode, Failure>)
      modifies this, variables, functions
      ensures Run(r, Snapshot()) == Eval(fuel, old(Snapshot()), e)
      decreases fuel, e, 1
    {
      match e
      case Lit(lit) =>
        if lit.StringNode? {
          r := EvaluateString(lit.s);
        } else {
          r := Ok(lit);
        }
      case FunctionCallNode(name, args, line) =>
        r := ExecuteFunctionCall(fuel, name, args, line);
      case IdentifierNode(name) =>
        var stored := variables.GetVariableValue(name);
        if stored.Ok? && stored.value.StringNode? {
          r := EvaluateString(stored.value.s);
        } else {
          r := stored;
        }
      case ArithmeticNode(_, _, _) =>
        r := EvaluateArithmetic(fuel, e);
      case NegationNode(operand) =>
        r := Negate(operand);
      case ConditionalNode(_, _, _) =>
        var c := EvaluateConditional(fuel, e);
        r := if c.Err? then Err(c.error) else Ok(BooleanNode(c.value));
      case LogicalNode(_, _, _) =>
        var b := EvaluateLogical(fuel, e);
        r := if b.Err? then Err(b.error) else Ok(BooleanNode(b.value));
    }

    method EvaluateArithmetic(fuel: nat, e: Expr) returns (r: Result<LiteralNode, Failure>)
      requires e.ArithmeticNode?
      modifies this, variables, functions
      ensures Run(r, Snapshot()) == Eval(fuel, old(Snapshot()), e)
      decreases fuel, e, 0
    {
      var left := Evaluate(fuel, e.left);
      if left.Err? {
        return left;
      }
      var right := Evaluate(fuel, e.right);
      if right.Err? {
        return right;
      }
      r := Arithmetic(e.aop, left.value, right.value);
    }

    method EvaluateConditional(fuel: nat, e: Expr) returns (r: Result<bool, Failure>)
      requires e.ConditionalNode?
      modifies this, variables, functions
      ensures Run(if r.Err? then Err(r.error) else Ok(BooleanNode(r.value)), Snapshot()) == Eval(fuel, old(Snapshot()), e)
      decreases fuel, e, 0
    {
      var left := Evaluate(fuel, e.left);
      if left.Err? {
        return Err(left.error);
      }
      var right := Evaluate(fuel, e.right);
      if right.Err? {
        return Err(right.error);
      }
      r := Compare(e.cop, left.value, right.value);
    }

    method EvaluateLogical(fuel: nat, e: Expr) returns (r: Result<bool, Failure>)
      requires e.LogicalNode?
      modifies this, variables, functions
      ensures Run(if r.Err? then Err(r.error) else Ok(BooleanNode(r.value)), Snapshot()) == Eval(fuel, old(Snapshot()), e)
      decreases fuel, e, 0
    {
      var left := Evaluate(fuel, e.left);
      if left.Err? {
        return Err(left.error);
      }
      var right := Evaluate(fuel, e.right);
      if right.Err? {
        return Err(right.error);
      }
      return Ok(Logical(e.lop, left.value, right.value));
    }

    /** `evaluateString`: every placeholder's variable is read first, then each
        placeholder in turn is replaced by its value's text. */
    method EvaluateString(s: string) returns (r: Result<LiteralNode, Failure>)
      ensures r == Interpolate(variables.frames, s)
    {
      var identifiers := Placeholders(s, 0);
      var values := LookUpPlaceholders(identifiers);
      if values.Err? {
        return Err(values.error);
      }
      var text := FillPlaceholders(s, identifiers, values.value);
      return Ok(StringNode(text));
    }

    /** The first loop of `evaluateString`: the value of each placeholder's variable, in
        order, or the error of the first that is not declared. */
    method LookUpPlaceholders(identifiers: seq<string>) returns (r: Result<seq<LiteralNode>, Failure>)
      ensures r == LookupNames(variables.frames, identifiers, 0)
    {
      ghost var frames := variables.frames;
      var values: seq<LiteralNode> := [];
      PrependNothing(LookupNames(frames, identifiers, 0));
      var i := 0;
      while i < |identifiers|
        invariant 0 <= i <= |identifiers|
        invariant LookupNames(frames, identifiers, 0) == Prepend(values, LookupNames(frames, identifiers, i))
      {
        var value := variables.GetVariableValue(PlaceholderName(identifiers[i]));
        if value.Err? {
          return Err(value.error);
        }
        PrependTwice(values, [value.value], LookupNames(frames, identifiers, i + 1));
        values := values + [value.value];
        i := i + 1;
      }
      assert values + [] == values;
      return Ok(values);
    }

    /** The second loop of `evaluateString`: each placeholder in turn replaced by the
        text of its value. */
    method FillPlaceholders(s: string, identifiers: seq<string>, values: seq<LiteralNode>) returns (text: string)
      requires |values| == |identifiers|
      ensures text == FillIn(s, identifiers, Texts(values))
    {
      ghost var texts := Texts(values);
      text := s;
      var k := 0;
      while k < |identifiers|
        invariant 0 <= k <= |identifiers| == |texts|
        invariant FillIn(s, identifiers, texts) == FillIn(text, identifiers[k..], texts[k..])
      {
        FillInStep(s, identifiers, texts, k, text);
        text := ReplaceFirst(text, identifiers[k], HostText(values[k].Value()));
        k := k + 1;
      }
      FillInNothing(text);
    }
  }
}
