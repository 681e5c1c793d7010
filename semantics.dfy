/** What running a program does (src/interpreter/Interpreter.ts), as functions from a
    state to a run: the value or the error, and the state the run leaves behind. The
    state is the two symbol tables as stacks of frames, the output written so far and
    the input lines not yet read. An error keeps the state it was thrown in, so the
    output written before it stays observable.

    Execution is bounded by fuel: a call of a user function and every further
    iteration of a `while` take one unit, and a run that needs more ends in `OutOfFuel`. */
module Semantics {

  import opened Base
  import opened Numerals
  import opened Ast
  import opened Values
  import opened Variables
  import opened Functions

  /** What the program writes: a `print` line with its values, or the prompt `input`
      writes before it reads a line. */
  datatype OutputEvent = Printed(values: seq<HostValue>) | Prompted(prompt: string)

  datatype State = State(vars: seq<Frame>, funcs: seq<FunctionFrame>, out: seq<OutputEvent>, input: seq<string>)

  /** The outcome of running something from a state. */
  datatype Run<T> = Run(result: Result<T, Failure>, state: State)

  /** A fresh interpreter: one global frame in each table, nothing written yet. */
  function Start(input: seq<string>): State
  {
    State([map[]], [map[]], [], input)
  }

  /** Both tables have as many frames as before. */
  predicate Balanced(st: State, st': State)
  {
    |st'.vars| == |st.vars| && |st'.funcs| == |st.funcs|
  }

  /** Both tables have as many frames as before and each frame binds the same names:
      whatever was declared or defined in frames pushed since has gone with them. */
  predicate KeepsNames(st: State, st': State)
  {
    && Balanced(st, st')
    && (forall i :: 0 <= i < |st.vars| ==> st'.vars[i].Keys == st.vars[i].Keys)
    && (forall i :: 0 <= i < |st.funcs| ==> st'.funcs[i].Keys == st.funcs[i].Keys)
  }

  /** Both tables have as many frames as before; the frames below the current one bind
      the same names, and the current one binds at least the names it did. */
  predicate GrowsTop(st: State, st': State)
  {
    && Balanced(st, st')
    && (forall i :: 0 <= i < |st.vars| - 1 ==> st'.vars[i].Keys == st.vars[i].Keys)
    && (forall i :: 0 <= i < |st.funcs| - 1 ==> st'.funcs[i].Keys == st.funcs[i].Keys)
    && (|st.vars| > 0 ==> st.vars[|st.vars| - 1].Keys <= st'.vars[|st.vars| - 1].Keys)
    && (|st.funcs| > 0 ==> st.funcs[|st.funcs| - 1].Keys <= st'.funcs[|st.funcs| - 1].Keys)
  }

  /** A fresh, empty frame pushed on each table, as entering a scope or a call does. */
  function Entered(st: State): State
  {
    st.(vars := st.vars + [map[]], funcs := st.funcs + [map[]])
  }

  /** The value a block yields: the returned one, or a NoneNode on fall-through. */
  function Returned(v: Option<LiteralNode>): LiteralNode
  {
    if v.Some? then v.value else NoneNode
  }

  // ---------------------------------------------------------------------------
  // Strings

  /** The values of the placeholders from the `i`-th on, read from the variable table. */
  function LookupNames(vars: seq<Frame>, holes: seq<string>, i: nat): (r: Result<seq<LiteralNode>, Failure>)
    requires i <= |holes|
    ensures r.Ok? <==> forall k :: i <= k < |holes| ==> Lookup(vars, PlaceholderName(holes[k])).Ok?
    ensures r.Ok? ==> |r.value| == |holes| - i
    ensures r.Ok? ==> forall k :: i <= k < |holes| ==> r.value[k - i] == Lookup(vars, PlaceholderName(holes[k])).value
    ensures r.Err? ==> r.error == Thrown(ReferenceError, None)
    decreases |holes| - i
  {
    if i == |holes| then Ok([])
    else match Lookup(vars, PlaceholderName(holes[i]))
      case Err(f) => Err(f)
      case Ok(v) =>
        match LookupNames(vars, holes, i + 1)
        case Err(f) => Err(f)
        case Ok(vs) => Ok([v] + vs)
  }

  /** The texts the values turn into when they fill a placeholder. */
  function Texts(vals: seq<LiteralNode>): (r: seq<string>)
    ensures |r| == |vals| && forall i :: 0 <= i < |vals| ==> r[i] == HostText(vals[i].Value())
  {
    seq(|vals|, i requires 0 <= i < |vals| => HostText(vals[i].Value()))
  }

  /** `evaluateString`: every placeholder is looked up first, then each is replaced in
      turn. */
  function Interpolate(vars: seq<Frame>, s: string): Result<LiteralNode, Failure>
  {
    var holes := Placeholders(s, 0);
    match LookupNames(vars, holes, 0)
    case Err(f) => Err(f)
    case Ok(vals) => Ok(StringNode(FillIn(s, holes, Texts(vals))))
  }

  /** A literal evaluates to itself, except that a string is interpolated. */
  function Literal(vars: seq<Frame>, lit: LiteralNode): Result<LiteralNode, Failure>
  {
    if lit.StringNode? then Interpolate(vars, lit.s) else Ok(lit)
  }

  // ---------------------------------------------------------------------------
  // Builtins

  /** What a builtin does with its one argument, given as the text it converts to:
      `input` writes the prompt and reads a line, `number` is `Number(text)` and
      `string` is `String(number)`. */
  function Host(st: State, name: string, arg: string): Run<LiteralNode>
  {
    if name == "input" then
      var prompted := st.(out := st.out + [Prompted(arg)]);
      if |st.input| == 0 then Run(Err(Unrepresentable), prompted)
      else Run(Ok(StringNode(st.input[0])), prompted.(input := st.input[1..]))
    else if name == "number" then
      Run(match NumberOf(arg) case Ok(n) => Ok(NumberNode(n)) case Err(f) => Err(f), st)
    else Run(Ok(StringNode(arg)), st)
  }

  /** A call of a builtin: the number of arguments and their types are checked against
      the signature, both failures throwing a plain Error with the line of the call. */
  function CallBuiltin(st: State, name: string, b: Builtin, vals: seq<LiteralNode>, line: nat): Run<LiteralNode>
    requires BuiltinSignature(name) == Some(b)
  {
    if |vals| < b.requiredArgs || |vals| > |b.paramsType| then Run(Err(Thrown(PlainError, Some(line))), st)
    else if exists i :: 0 <= i < |vals| && vals[i].TypeOf() != b.paramsType[i] then
      Run(Err(Thrown(PlainError, Some(line))), st)
    else Host(st, name, HostText(vals[0].Value()))
  }

  // ---------------------------------------------------------------------------
  // Expressions and statements

  /** `evaluateExpression`. */
  function Eval(fuel: nat, st: State, e: Expr): (r: Run<LiteralNode>)
    ensures r.result.Ok? ==> KeepsNames(st, r.state)
    decreases fuel, e
  {
    match e
    case Lit(lit) => Run(Literal(st.vars, lit), st)
    case IdentifierNode(name) =>
      (match Lookup(st.vars, name)
       case Err(f) => Run(Err(f), st)
       case Ok(v) => Run(Literal(st.vars, v), st))
    case ArithmeticNode(op, left, right) =>
      var a := Eval(fuel, st, left);
      if a.result.Err? then a
      else
        var b := Eval(fuel, a.state, right);
        if b.result.Err? then b
        else Run(Arithmetic(op, a.result.value, b.result.value), b.state)
    case NegationNode(operand) => Run(Negate(operand), st)
    case ConditionalNode(op, left, right) =>
      var a := Eval(fuel, st, left);
      if a.result.Err? then a
      else
        var b := Eval(fuel, a.state, right);
        if b.result.Err? then b
        else
          (match Compare(op, a.result.value, b.result.value)
           case Err(f) => Run(Err(f), b.state)
           case Ok(c) => Run(Ok(BooleanNode(c)), b.state))
    case LogicalNode(op, left, right) =>
      var a := Eval(fuel, st, left);
      if a.result.Err? then a
      else
        var b := Eval(fuel, a.state, right);
        if b.result.Err? then b
        else Run(Ok(BooleanNode(Logical(op, a.result.value, b.result.value))), b.state)
    case FunctionCallNode(name, args, line) => EvalCall(fuel, st, name, args, line)
  }

  /** The arguments from the `i`-th on, left to right. */
  function EvalArgs(fuel: nat, st: State, args: seq<Expr>, i: nat): (r: Run<seq<LiteralNode>>)
    requires i <= |args|
    ensures r.result.Ok? ==> |r.result.value| == |args| - i && KeepsNames(st, r.state)
    decreases fuel, args, |args| - i
  {
    if i == |args| then Run(Ok([]), st)
    else
      var a := Eval(fuel, st, args[i]);
      if a.result.Err? then Run(Err(a.result.error), a.state)
      else
        var rest := EvalArgs(fuel, a.state, args, i + 1);
        if rest.result.Err? then rest
        else Run(Ok([a.result.value] + rest.result.value), rest.state)
  }

  /** `executeFunctionCall`: the arguments are evaluated, then a builtin of that name is
      called, or else the user function the function table resolves. A name the
      builtin registry inherits from `Object.prototype` throws TypeError. */
  function EvalCall(fuel: nat, st: State, name: string, args: seq<Expr>, line: nat): (r: Run<LiteralNode>)
    ensures r.result.Ok? ==> KeepsNames(st, r.state)
    decreases fuel, args
  {
    var a := EvalArgs(fuel, st, args, 0);
    if a.result.Err? then Run(Err(a.result.error), a.state)
    else CallOn(fuel, a.state, name, a.result.value, line, args)
  }

  /** A call once its arguments are the values `vals`: the builtin of the name, TypeError
      for a name inherited from `Object.prototype`, or else the user function the table
      resolves. The argument expressions `args` only bound the recursion. */
  function CallOn(fuel: nat, st: State, name: string, vals: seq<LiteralNode>, line: nat, ghost args: seq<Expr>): (r: Run<LiteralNode>)
    ensures r.result.Ok? ==> KeepsNames(st, r.state)
    decreases fuel, args, 0
  {
    match BuiltinSignature(name)
    case Some(b) => CallBuiltin(st, name, b, vals, line)
    case None =>
      if name in InheritedNames then Run(Err(Thrown(TypeError, None)), st)
      else
        ResolveArity(st.funcs, name, vals);
        match Resolve(st.funcs, name, vals)
        case Err(f) => Run(Err(f), st)
        case Ok(def) =>
          if fuel == 0 then Run(Err(OutOfFuel), st)
          else Invoke(fuel - 1, st, def, vals)
  }

  /** A call of a user function: a frame is pushed on each table, the parameters are
      declared with the arguments, the body runs, both frames are popped, and the
      value must have the declared return type. */
  function Invoke(fuel: nat, st: State, def: FunctionDef, vals: seq<LiteralNode>): (r: Run<LiteralNode>)
    requires |def.params| <= |vals|
    ensures r.result.Ok? ==> KeepsNames(st, r.state)
    decreases fuel, def
  {
    var bound := BindParams(Entered(st), def.params, vals, 0);
    if bound.result.Err? then Run(Err(bound.result.error), bound.state)
    else
      var body := ExecBlock(fuel, bound.state, def.body, 0);
      if body.result.Err? then Run(Err(body.result.error), body.state)
      else
        var value := Returned(body.result.value);
        var left := body.state.(vars := Pop(body.state.vars), funcs := Pop(body.state.funcs));
        if value.TypeOf().Name() != def.returnType.name then Run(Err(Thrown(TypeError, Some(def.line))), left)
        else Run(Ok(value), left)
  }

  /** The parameters from the `i`-th on are declared, in order, with their arguments. */
  function BindParams(st: State, params: seq<Param>, vals: seq<LiteralNode>, i: nat): (r: Run<()>)
    requires i <= |params| <= |vals|
    ensures r.state == st.(vars := r.state.vars) && |r.state.vars| == |st.vars|
    ensures forall j :: 0 <= j < |st.vars| - 1 ==> r.state.vars[j] == st.vars[j]
    ensures |st.vars| > 0 ==> st.vars[|st.vars| - 1].Keys <= r.state.vars[|st.vars| - 1].Keys
    decreases |params| - i
  {
    if i == |params| then Run(Ok(()), st)
    else match Declare(st.vars, params[i].paramName, vals[i])
      case Err(f) => Run(Err(f), st)
      case Ok(vars) => BindParams(st.(vars := vars), params, vals, i + 1)
  }

  /** `interpret` on a block from its `i`-th statement: the first statement that yields a
      value ends the block with it. */
  function ExecBlock(fuel: nat, st: State, p: Program, i: nat): (r: Run<Option<LiteralNode>>)
    requires i <= |p.statements|
    ensures r.result.Ok? ==> GrowsTop(st, r.state)
    decreases fuel, p, |p.statements| - i
  {
    if i == |p.statements| then Run(Ok(None), st)
    else
      var s := ExecStmt(fuel, st, p.statements[i]);
      if s.result.Err? || s.result.value.Some? then s
      else ExecBlock(fuel, s.state, p, i + 1)
  }

  /** A block in fresh frames, as `if`, `else` and `while` run theirs. */
  function ScopedBlock(fuel: nat, st: State, p: Program): (r: Run<LiteralNode>)
    ensures r.result.Ok? ==> KeepsNames(st, r.state)
    decreases fuel, p
  {
    var r := ExecBlock(fuel, Entered(st), p, 0);
    if r.result.Err? then Run(Err(r.result.error), r.state)
    else Run(Ok(Returned(r.result.value)), r.state.(vars := Pop(r.state.vars), funcs := Pop(r.state.funcs)))
  }

  /** A value from a block that ran. */
  function Taken(r: Run<LiteralNode>): (t: Run<Option<LiteralNode>>)
    ensures t.state == r.state
  {
    if r.result.Err? then Run(Err(r.result.error), r.state) else Run(Ok(Some(r.result.value)), r.state)
  }

  /** The `value` fields `print` passes on. */
  function HostValues(vals: seq<LiteralNode>): (r: seq<HostValue>)
    ensures |r| == |vals| && forall i :: 0 <= i < |vals| ==> r[i] == vals[i].Value()
  {
    seq(|vals|, i requires 0 <= i < |vals| => vals[i].Value())
  }

  /** `executeStatement`: `Some` value when the statement ends the block. */
  function ExecStmt(fuel: nat, st: State, s: Stmt): (r: Run<Option<LiteralNode>>)
    ensures r.result.Ok? ==> GrowsTop(st, r.state)
    decreases fuel, s, 1
  {
    match s
    case VariableDeclarationNode(name, varType, value, line) =>
      var v := Eval(fuel, st, value);
      if v.result.Err? then Run(Err(v.result.error), v.state)
      else if v.result.value.TypeOf().Name() != varType.name then Run(Err(Thrown(TypeError, Some(line))), v.state)
      else
        (match Declare(v.state.vars, name, v.result.value)
         case Err(f) => Run(Err(f), v.state)
         case Ok(vars) => Run(Ok(None), v.state.(vars := vars)))
    case AssignmentNode(name, value, line) =>
      var v := Eval(fuel, st, value);
      if v.result.Err? then Run(Err(v.result.error), v.state)
      else
        (match Assign(v.state.vars, name, v.result.value, line)
         case Err(f) => Run(Err(f), v.state)
         case Ok(vars) => Run(Ok(None), v.state.(vars := vars)))
    case PrintNode(args, _) =>
      var a := EvalArgs(fuel, st, args, 0);
      if a.result.Err? then Run(Err(a.result.error), a.state)
      else Run(Ok(None), a.state.(out := a.state.out + [Printed(HostValues(a.result.value))]))
    case FunctionDefinitionNode(def) =>
      (match Define(st.funcs, def)
       case Err(f) => Run(Err(f), st)
       case Ok(funcs) => Run(Ok(None), st.(funcs := funcs)))
    case CallStatement(name, args, line) =>
      var c := EvalCall(fuel, st, name, args, line);
      if c.result.Err? then Run(Err(c.result.error), c.state)
      else Run(Ok(None), c.state)
    case ReturnNode(value, _) =>
      var v := Eval(fuel, st, value);
      if v.result.Err? then Run(Err(v.result.error), v.state)
      else Run(Ok(Some(v.result.value)), v.state)
    case IfElseNode(_, _, _, _, _) =>
      var r := ExecIf(fuel, st, s);
      if r.result == Ok(Some(NoneNode)) then Run(Ok(None), r.state) else r
    case WhileNode(_, _, _) =>
      var r := ExecWhile(fuel, st, s);
      if r.result.Err? then Run(Err(r.result.error), r.state)
      else if r.result.value == NoneNode then Run(Ok(None), r.state)
      else Run(Ok(Some(r.result.value)), r.state)
  }

  /** `executeIfElseStatement`: the first condition that holds, the `if`'s and then each
      `else if`'s in order, runs its block in fresh frames; failing all of them the `else`
      block runs, if there is one. `None` when no block runs. */
  function ExecIf(fuel: nat, st: State, s: Stmt): (r: Run<Option<LiteralNode>>)
    requires s.IfElseNode?
    ensures r.result.Ok? ==> KeepsNames(st, r.state)
    decreases fuel, s, 0
  {
    var c := Eval(fuel, st, s.cond);
    if c.result.Err? then Run(Err(c.result.error), c.state)
    else if Truthy(c.result.value) then Taken(ScopedBlock(fuel, c.state, s.ifBlock))
    else
      var b := ElseIfs(fuel, c.state, s.elseIfs, 0);
      if b.result.Err? || b.result.value.Some? then b
      else if s.elseBlock.None? then Run(Ok(None), b.state)
      else Taken(ScopedBlock(fuel, b.state, s.elseBlock.value.block))
  }

  /** The `else if` branches from the `i`-th on: the first whose condition holds runs its
      block, and its value (a NoneNode on fall-through) is `Some`; `None` when no
      condition holds. */
  function ElseIfs(fuel: nat, st: State, branches: seq<IfBranch>, i: nat): (r: Run<Option<LiteralNode>>)
    requires i <= |branches|
    ensures r.result.Ok? ==> KeepsNames(st, r.state)
    decreases fuel, branches, |branches| - i
  {
    if i == |branches| then Run(Ok(None), st)
    else
      var b := Branch(fuel, st, branches[i]);
      if b.result.Err? || b.result.value.Some? then b
      else ElseIfs(fuel, b.state, branches, i + 1)
  }

  /** One `else if`: its condition, and its block in fresh frames when the condition
      holds. */
  function Branch(fuel: nat, st: State, branch: IfBranch): (r: Run<Option<LiteralNode>>)
    ensures r.result.Ok? ==> KeepsNames(st, r.state)
    decreases fuel, branch
  {
    var c := Eval(fuel, st, branch.cond);
    if c.result.Err? then Run(Err(c.result.error), c.state)
    else if !Truthy(c.result.value) then Run(Ok(None), c.state)
    else Taken(ScopedBlock(fuel, c.state, branch.block))
  }

  /** `executeWhileStatementNode`: while the condition holds the body runs in fresh
      frames. A value from the body ends the loop with that value; otherwise the loop
      runs again, and whatever that run yields is dropped: the loop yields a NoneNode. */
  function ExecWhile(fuel: nat, st: State, s: Stmt): (r: Run<LiteralNode>)
    requires s.WhileNode?
    ensures r.result.Ok? ==> KeepsNames(st, r.state)
    decreases fuel, s, 0
  {
    var c := Eval(fuel, st, s.cond);
    if c.result.Err? then c
    else if !Truthy(c.result.value) then Run(Ok(NoneNode), c.state)
    else
      var b := ScopedBlock(fuel, c.state, s.block);
      if b.result.Err? || b.result.value != NoneNode then b
      else if fuel == 0 then Run(Err(OutOfFuel), b.state)
      else
        var again := ExecWhile(fuel - 1, b.state, s);
        if again.result.Err? then again
        else Run(Ok(NoneNode), again.state)
  }

  /** `interpret` on the whole program, from a fresh interpreter. */
  function Interpret(fuel: nat, program: Program, input: seq<string>): Run<Option<LiteralNode>>
  {
    ExecBlock(fuel, Start(input), program, 0)
  }
}
