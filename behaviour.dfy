/** Properties of running programs (src/interpreter/Interpreter.ts), proved on the
    semantics: the order statements run in, what a declaration checks, how `if` picks
    its branch, what a `while` yields, what a call verifies, and interpolation. */
module Behaviour {

  import opened Base
  import opened Numerals
  import opened Ast
  import opened Values
  import opened Variables
  import opened Functions
  import opened Semantics

  // ---------------------------------------------------------------------------
  // Blocks

  lemma {:induction false} BlockSuffix(fuel: nat, st: State, a: seq<Stmt>, b: seq<Stmt>, k: nat)
    requires k <= |b|
    ensures ExecBlock(fuel, st, Program(a + b), |a| + k) == ExecBlock(fuel, st, Program(b), k)
    decreases |b| - k
  {
    if k < |b| {
      assert (a + b)[|a| + k] == b[k];
      var s := ExecStmt(fuel, st, b[k]);
      if s.result.Ok? && s.result.value.None? {
        BlockSuffix(fuel, s.state, a, b, k + 1);
      }
    }
  }

  /** Statements run in order: a block runs its first part, and only when that part
      ends without a value or an error does the rest run, from the state the first part
      left. */
  lemma {:induction false} BlockSequence(fuel: nat, st: State, a: seq<Stmt>, b: seq<Stmt>, i: nat)
    requires i <= |a|
    ensures var first := ExecBlock(fuel, st, Program(a), i);
      ExecBlock(fuel, st, Program(a + b), i)
      == if first.result == Ok(None) then ExecBlock(fuel, first.state, Program(b), 0) else first
    decreases |a| - i
  {
    if i == |a| {
      BlockSuffix(fuel, st, a, b, 0);
    } else {
      assert (a + b)[i] == a[i];
      var s := ExecStmt(fuel, st, a[i]);
      if s.result.Ok? && s.result.value.None? {
        BlockSequence(fuel, s.state, a, b, i + 1);
      }
    }
  }

  /** A statement that yields a value, or throws, ends the block: the statements after
      it never run. */
  lemma BlockStopsAtValue(fuel: nat, st: State, s: Stmt, rest: seq<Stmt>)
    requires ExecStmt(fuel, st, s).result != Ok(None)
    ensures ExecBlock(fuel, st, Program([s] + rest), 0) == ExecStmt(fuel, st, s)
  {
    BlockSequence(fuel, st, [s], rest, 0);
    BlockSuffix(fuel, ExecStmt(fuel, st, s).state, [s], [], 0);
  }

  // ---------------------------------------------------------------------------
  // Expressions without calls

  /** An expression that calls no function. */
  predicate CallFree(e: Expr)
  {
    match e
    case Lit(_) => true
    case IdentifierNode(_) => true
    case ArithmeticNode(_, l, r) => CallFree(l) && CallFree(r)
    case NegationNode(_) => true
    case ConditionalNode(_, l, r) => CallFree(l) && CallFree(r)
    case LogicalNode(_, l, r) => CallFree(l) && CallFree(r)
    case FunctionCallNode(_, _, _) => false
  }

  /** Expressions only reach the state through calls: one without calls reads the
      variable table and changes nothing. */
  lemma {:induction false} CallFreeKeepsState(fuel: nat, st: State, e: Expr)
    requires CallFree(e)
    ensures Eval(fuel, st, e).state == st
  {
    match e
    case Lit(_) =>
    case IdentifierNode(_) =>
    case NegationNode(_) =>
    case ArithmeticNode(_, l, r) =>
      CallFreeKeepsState(fuel, st, l);
      CallFreeKeepsState(fuel, st, r);
    case ConditionalNode(_, l, r) =>
      CallFreeKeepsState(fuel, st, l);
      CallFreeKeepsState(fuel, st, r);
    case LogicalNode(_, l, r) =>
      CallFreeKeepsState(fuel, st, l);
      CallFreeKeepsState(fuel, st, r);
  }

  /** `&&` and `||` evaluate both operands whatever the left one is: the right operand's
      error, or its effect on the state, happens even when the left operand decides the
      outcome. */
  lemma LogicalEvaluatesBoth(fuel: nat, st: State, op: LogicOp, left: Expr, right: Expr)
    requires Eval(fuel, st, left).result.Ok?
    ensures var a := Eval(fuel, st, left);
      var b := Eval(fuel, a.state, right);
      var r := Eval(fuel, st, LogicalNode(op, left, right));
      && r.state == b.state
      && (b.result.Err? ==> r.result == b.result)
      && (b.result.Ok? ==> r.result == Ok(BooleanNode(Logical(op, a.result.value, b.result.value))))
  {
    var a := Eval(fuel, st, left);
    var b := Eval(fuel, a.state, right);
    assert Eval(fuel, st, LogicalNode(op, left, right))
        == if b.result.Err? then b else Run(Ok(BooleanNode(Logical(op, a.result.value, b.result.value))), b.state);
  }

  // ---------------------------------------------------------------------------
  // Declarations

  /** A declaration throws TypeError with its line when the value has another type than
      the annotation names; it succeeds exactly when the types agree and the current
      frame does not hold the name, and then the name reads as the value while every
      other name reads as before. */
  lemma DeclarationChecksType(fuel: nat, st: State, name: string, varType: TypeAnnotation, e: Expr, line: nat, other: string)
    requires Eval(fuel, st, e).result.Ok?
    ensures var v := Eval(fuel, st, e);
      var r := ExecStmt(fuel, st, VariableDeclarationNode(name, varType, e, line));
      && (v.result.value.TypeOf().Name() != varType.name ==> r == Run(Err(Thrown(TypeError, Some(line))), v.state))
      && (r.result.Ok? <==>
            v.result.value.TypeOf().Name() == varType.name
            && |v.state.vars| > 0 && name !in v.state.vars[|v.state.vars| - 1])
      && (r.result.Ok? ==>
            && r.result.value.None?
            && Lookup(r.state.vars, name) == Ok(v.result.value)
            && (other != name ==> Lookup(r.state.vars, other) == Lookup(v.state.vars, other)))
  {
    var v := Eval(fuel, st, e);
    DeclareBinds(v.state.vars, name, v.result.value, other);
  }

  // ---------------------------------------------------------------------------
  // print

  /** Arguments that call nothing leave the state as it was. */
  lemma {:induction false} CallFreeArgumentsKeepState(fuel: nat, st: State, args: seq<Expr>, i: nat)
    requires i <= |args| && forall k :: i <= k < |args| ==> CallFree(args[k])
    ensures EvalArgs(fuel, st, args, i).state == st
    decreases |args| - i
  {
    if i < |args| {
      CallFreeKeepsState(fuel, st, args[i]);
      CallFreeArgumentsKeepState(fuel, st, args, i + 1);
    }
  }

  /** `print` writes one line holding the `value` fields of its arguments, after every
      argument is evaluated, and changes nothing else; an argument's error is thrown
      before anything is written. With arguments that call nothing, the only change is
      that one line. */
  lemma PrintWritesOneLine(fuel: nat, st: State, args: seq<Expr>, line: nat)
    ensures var a := EvalArgs(fuel, st, args, 0);
      var r := ExecStmt(fuel, st, PrintNode(args, line));
      && (r.result.Ok? <==> a.result.Ok?)
      && (a.result.Err? ==> r == Run(Err(a.result.error), a.state))
      && (a.result.Ok? ==>
            && r.result == Ok(None)
            && r.state == a.state.(out := a.state.out + [Printed(HostValues(a.result.value))])
            && |r.state.out| == |a.state.out| + 1
            && r.state.out[|a.state.out|].values == seq(|args|, k requires 0 <= k < |args| => a.result.value[k].Value()))
      && ((forall k :: 0 <= k < |args| ==> CallFree(args[k])) && a.result.Ok? ==>
            r.state == st.(out := st.out + [Printed(HostValues(a.result.value))]))
  {
    if forall k :: 0 <= k < |args| ==> CallFree(args[k]) {
      CallFreeArgumentsKeepState(fuel, st, args, 0);
    }
  }

  // ---------------------------------------------------------------------------
  // if / else if / else

  /** The state after the conditions of branches `i` to `j - 1` are evaluated in turn,
      when each evaluates without error to a falsy value; `None` when one of them fails
      or holds. */
  function FalsyThrough(fuel: nat, st: State, branches: seq<IfBranch>, i: nat, j: nat): Option<State>
    requires i <= j <= |branches|
    decreases j - i
  {
    if i == j then Some(st)
    else
      var c := Eval(fuel, st, branches[i].cond);
      if c.result.Ok? && !Truthy(c.result.value) then FalsyThrough(fuel, c.state, branches, i + 1, j)
      else None
  }

  /** The first `else if` whose condition holds runs its block, from the state the
      conditions before it left; each branch before it only has its condition
      evaluated, calls and all. */
  lemma {:induction false} ElseIfsFirstTruthy(fuel: nat, st: State, branches: seq<IfBranch>, i: nat, j: nat)
    requires i <= j < |branches| && FalsyThrough(fuel, st, branches, i, j).Some?
    requires var at := FalsyThrough(fuel, st, branches, i, j).value;
      Eval(fuel, at, branches[j].cond).result.Ok? && Truthy(Eval(fuel, at, branches[j].cond).result.value)
    ensures var at := FalsyThrough(fuel, st, branches, i, j).value;
      && ElseIfs(fuel, st, branches, i) == Branch(fuel, at, branches[j])
      && (Branch(fuel, at, branches[j]).result.Ok? ==> Branch(fuel, at, branches[j]).result.value.Some?)
    decreases j - i
  {
    if i < j {
      var c := Eval(fuel, st, branches[i].cond);
      assert Branch(fuel, st, branches[i]) == Run(Ok(None), c.state);
      ElseIfsFirstTruthy(fuel, c.state, branches, i + 1, j);
    }
  }

  /** When no `else if` condition holds, no block runs, and the state is the one the
      conditions left. */
  lemma {:induction false} ElseIfsNoneHolds(fuel: nat, st: State, branches: seq<IfBranch>, i: nat)
    requires i <= |branches| && FalsyThrough(fuel, st, branches, i, |branches|).Some?
    ensures ElseIfs(fuel, st, branches, i) == Run(Ok(None), FalsyThrough(fuel, st, branches, i, |branches|).value)
    decreases |branches| - i
  {
    if i < |branches| {
      var c := Eval(fuel, st, branches[i].cond);
      assert Branch(fuel, st, branches[i]) == Run(Ok(None), c.state);
      ElseIfsNoneHolds(fuel, c.state, branches, i + 1);
    }
  }

  /** An `if` whose condition and `else if` conditions all fail and that has an `else`
      runs the `else` block in fresh frames, from the state the conditions left. */
  lemma IfFallsToElse(fuel: nat, st: State, s: Stmt)
    requires s.IfElseNode? && s.elseBlock.Some?
    requires Eval(fuel, st, s.cond).result.Ok? && !Truthy(Eval(fuel, st, s.cond).result.value)
    requires FalsyThrough(fuel, Eval(fuel, st, s.cond).state, s.elseIfs, 0, |s.elseIfs|).Some?
    ensures var at := FalsyThrough(fuel, Eval(fuel, st, s.cond).state, s.elseIfs, 0, |s.elseIfs|).value;
      ExecIf(fuel, st, s) == Taken(ScopedBlock(fuel, at, s.elseBlock.value.block))
  {
    ElseIfsNoneHolds(fuel, Eval(fuel, st, s.cond).state, s.elseIfs, 0);
  }

  /** Conditions that call nothing leave the state as it was: the `else if` conditions
      are then all evaluated in the state the `if` started in. */
  lemma {:induction false} CallFreeConditionsKeepState(fuel: nat, st: State, branches: seq<IfBranch>, i: nat, j: nat)
    requires i <= j <= |branches|
    requires forall k :: i <= k < j ==> CallFree(branches[k].cond)
    requires forall k :: i <= k < j ==> Eval(fuel, st, branches[k].cond).result.Ok? && !Truthy(Eval(fuel, st, branches[k].cond).result.value)
    ensures FalsyThrough(fuel, st, branches, i, j) == Some(st)
    decreases j - i
  {
    if i < j {
      CallFreeKeepsState(fuel, st, branches[i].cond);
      CallFreeConditionsKeepState(fuel, st, branches, i + 1, j);
    }
  }

  // ---------------------------------------------------------------------------
  // while

  /** The only value a `while` yields other than a NoneNode is the one the body yields in
      the first iteration. */
  lemma WhileValueFromFirstIteration(fuel: nat, st: State, s: Stmt)
    requires s.WhileNode? && ExecWhile(fuel, st, s).result.Ok?
    ensures var r := ExecWhile(fuel, st, s);
      var c := Eval(fuel, st, s.cond);
      r.result.value != NoneNode ==>
        c.result.Ok? && Truthy(c.result.value) && ScopedBlock(fuel, c.state, s.block) == r
  {
  }

  /** A value the body yields in a later iteration ends the loop but is dropped: when the
      first iteration yields no value, the loop yields a NoneNode whatever the rest of
      the loop yields. */
  lemma LaterReturnIsLost(fuel: nat, st: State, s: Stmt)
    requires s.WhileNode? && fuel > 0
    requires var c := Eval(fuel, st, s.cond); c.result.Ok? && Truthy(c.result.value)
    requires var c := Eval(fuel, st, s.cond); ScopedBlock(fuel, c.state, s.block).result == Ok(NoneNode)
    ensures var c := Eval(fuel, st, s.cond);
      var again := ExecWhile(fuel - 1, ScopedBlock(fuel, c.state, s.block).state, s);
      again.result.Ok? ==> ExecWhile(fuel, st, s) == Run(Ok(NoneNode), again.state)
  {
  }

  // ---------------------------------------------------------------------------
  // Calls

  /** A builtin is found before any user function of the same name. Its call fails with
      a plain Error at the call's line exactly when it gets other than one argument of
      the parameter's type; when it succeeds the value has the builtin's return type;
      the symbol tables are left as the arguments left them. */
  lemma BuiltinCallChecked(fuel: nat, st: State, name: string, args: seq<Expr>, line: nat)
    requires BuiltinSignature(name).Some?
    ensures var a := EvalArgs(fuel, st, args, 0);
      var b := BuiltinSignature(name).value;
      var r := EvalCall(fuel, st, name, args, line);
      a.result.Ok? ==>
        && (r.result == Err(Thrown(PlainError, Some(line)))
            <==> |a.result.value| != 1 || a.result.value[0].TypeOf() != b.paramsType[0])
        && (r.result.Ok? ==> r.result.value.TypeOf() == b.returnType)
        && r.state.vars == a.state.vars && r.state.funcs == a.state.funcs
  {
    var a := EvalArgs(fuel, st, args, 0);
    if a.result.Ok? && |a.result.value| == 1 {
      var b := BuiltinSignature(name).value;
      var vals := a.result.value;
      assert (exists i :: 0 <= i < |vals| && vals[i].TypeOf() != b.paramsType[i]) <==> vals[0].TypeOf() != b.paramsType[0];
    }
  }

  /** A name the registry inherits from `Object.prototype` throws TypeError once the
      arguments are evaluated, whatever functions the program defines. */
  lemma InheritedNameThrows(fuel: nat, st: State, name: string, args: seq<Expr>, line: nat)
    requires name in InheritedNames
    ensures var a := EvalArgs(fuel, st, args, 0);
      a.result.Ok? ==> EvalCall(fuel, st, name, args, line) == Run(Err(Thrown(TypeError, None)), a.state)
  {
  }

  /** A successful call of a user function needed a unit of fuel and a resolved
      overload, and its value has the type the overload's return annotation names (a
      NoneNode, of type `none`, when the body returns nothing). */
  lemma UserCallReturnsDeclaredType(fuel: nat, st: State, name: string, args: seq<Expr>, line: nat)
    requires BuiltinSignature(name).None?
    requires EvalCall(fuel, st, name, args, line).result.Ok?
    ensures var a := EvalArgs(fuel, st, args, 0);
      && a.result.Ok? && name !in InheritedNames && fuel > 0
      && Resolve(a.state.funcs, name, a.result.value).Ok?
      && EvalCall(fuel, st, name, args, line).result.value.TypeOf().Name()
         == Resolve(a.state.funcs, name, a.result.value).value.returnType.name
  {
    var a := EvalArgs(fuel, st, args, 0);
    if a.result.Ok? {
      var vals := a.result.value;
      assert EvalCall(fuel, st, name, args, line) == CallOn(fuel, a.state, name, vals, line, args);
      ResolveArity(a.state.funcs, name, vals);
      if name !in InheritedNames && Resolve(a.state.funcs, name, vals).Ok? && fuel > 0 {
        assert CallOn(fuel, a.state, name, vals, line, args)
            == Invoke(fuel - 1, a.state, Resolve(a.state.funcs, name, vals).value, vals);
      }
    }
  }

  /** A user function whose parameters bind and whose body ends without an error: the
      call yields the body's value exactly when its type is the one the return annotation
      names, and throws TypeError with the definition's line otherwise. Either way both
      frames pushed for the call are gone, and the caller's frames bind the names they
      did. */
  lemma InvokeChecksReturnType(fuel: nat, st: State, def: FunctionDef, vals: seq<LiteralNode>)
    requires |def.params| <= |vals|
    requires var bound := BindParams(Entered(st), def.params, vals, 0);
      bound.result.Ok? && ExecBlock(fuel, bound.state, def.body, 0).result.Ok?
    ensures var bound := BindParams(Entered(st), def.params, vals, 0);
      var body := ExecBlock(fuel, bound.state, def.body, 0);
      var value := Returned(body.result.value);
      var r := Invoke(fuel, st, def, vals);
      && (r.result.Ok? <==> value.TypeOf().Name() == def.returnType.name)
      && (r.result.Ok? ==> r.result.value == value)
      && (r.result.Err? ==> r.result.error == Thrown(TypeError, Some(def.line)))
      && KeepsNames(st, r.state) && r.state.out == body.state.out && r.state.input == body.state.input
  {
    var bound := BindParams(Entered(st), def.params, vals, 0);
    var body := ExecBlock(fuel, bound.state, def.body, 0);
    var r := Invoke(fuel, st, def, vals);
    forall i | 0 <= i < |st.vars|
      ensures r.state.vars[i].Keys == st.vars[i].Keys
    {
      assert bound.state.vars[i] == Entered(st).vars[i];
    }
  }

  /** A call of a resolved user function, with fuel left, is its invocation on the
      evaluated arguments, so InvokeChecksReturnType decides its outcome. */
  lemma UserCallInvokes(fuel: nat, st: State, name: string, args: seq<Expr>, line: nat)
    requires BuiltinSignature(name).None? && name !in InheritedNames && fuel > 0
    requires var a := EvalArgs(fuel, st, args, 0);
      a.result.Ok? && Resolve(a.state.funcs, name, a.result.value).Ok?
    ensures var a := EvalArgs(fuel, st, args, 0);
      var def := Resolve(a.state.funcs, name, a.result.value).value;
      |def.params| <= |a.result.value|
      && EvalCall(fuel, st, name, args, line) == Invoke(fuel - 1, a.state, def, a.result.value)
  {
    var a := EvalArgs(fuel, st, args, 0);
    ResolveArity(a.state.funcs, name, a.result.value);
  }

  /** `number(string(n))` gives back `n` for a number that is not negative. */
  lemma NumberOfStringRoundTrip(fuel: nat, st: State, n: nat, line: nat)
    ensures Eval(fuel, st, FunctionCallNode("number", [FunctionCallNode("string", [Lit(NumberNode(n))], line)], line))
            == Run(Ok(NumberNode(n)), st)
  {
    var inner := FunctionCallNode("string", [Lit(NumberNode(n))], line);
    assert EvalArgs(fuel, st, [Lit(NumberNode(n))], 1) == Run(Ok([]), st);
    assert [NumberNode(n)] + [] == [NumberNode(n)];
    assert EvalArgs(fuel, st, [Lit(NumberNode(n))], 0) == Run(Ok([NumberNode(n)]), st);
    var text := IntToString(n);
    assert EvalCall(fuel, st, "string", [Lit(NumberNode(n))], line)
        == CallOn(fuel, st, "string", [NumberNode(n)], line, [Lit(NumberNode(n))]);
    assert Eval(fuel, st, inner) == Run(Ok(StringNode(text)), st);
    assert EvalArgs(fuel, st, [inner], 1) == Run(Ok([]), st);
    assert [StringNode(text)] + [] == [StringNode(text)];
    assert EvalArgs(fuel, st, [inner], 0) == Run(Ok([StringNode(text)]), st);
    assert EvalCall(fuel, st, "number", [inner], line) == CallOn(fuel, st, "number", [StringNode(text)], line, [inner]);
    NumberOfText(n);
  }

  // ---------------------------------------------------------------------------
  // Strings

  /** A string without an opening brace holds no placeholder and reads as itself. */
  lemma PlainStringUnchanged(fuel: nat, st: State, s: string)
    requires forall k :: 0 <= k < |s| ==> s[k] != '{'
    ensures Eval(fuel, st, Lit(StringNode(s))) == Run(Ok(StringNode(s)), st)
  {
    NoBraceNoPlaceholders(s, 0);
  }

  /** A string that is one placeholder: the variable is looked up, and the text of its
      value replaces the whole string as a replacement pattern. */
  lemma InterpolateOne(vars: seq<Frame>, name: string)
    requires IsName(name)
    ensures var s := "{" + name + "}";
      Interpolate(vars, s)
      == match Lookup(vars, name)
         case Err(f) => Err(f)
         case Ok(v) => Ok(StringNode(ReplaceFirst(s, s, HostText(v.Value()))))
  {
    var s := "{" + name + "}";
    SinglePlaceholder(name);
    assert PlaceholderName(s) == name;
    match Lookup(vars, name)
    case Err(f) =>
      assert LookupNames(vars, [s], 0) == Err(f);
    case Ok(v) =>
      var t := HostText(v.Value());
      assert LookupNames(vars, [s], 1) == Ok([]);
      assert [v] + [] == [v];
      assert LookupNames(vars, [s], 0) == Ok([v]);
      assert Texts([v]) == [t];
      assert FillIn(s, [s], [t]) == FillIn(ReplaceFirst(s, s, t), [], []);
  }

  /** Replacing a whole text by a pattern is the pattern's expansion. */
  lemma ReplaceWhole(s: string, rep: string)
    ensures ReplaceFirst(s, s, rep) == Expand(rep, [], s, [])
  {
    assert OccursAt(s, s, 0);
    assert FindFrom(s, s, 0) == Some(0);
    assert s[..0] == [] && s[|s|..] == [];
  }

  /** A string that is one placeholder reads as the text of the variable's current
      value, when that text holds no `$`. */
  lemma PlaceholderReadsVariable(fuel: nat, st: State, name: string, v: LiteralNode)
    requires IsName(name) && Lookup(st.vars, name) == Ok(v) && '$' !in HostText(v.Value())
    ensures Eval(fuel, st, Lit(StringNode("{" + name + "}"))) == Run(Ok(StringNode(HostText(v.Value()))), st)
  {
    var s := "{" + name + "}";
    InterpolateOne(st.vars, name);
    ReplaceWhole(s, HostText(v.Value()));
    ExpandWithoutDollar(HostText(v.Value()), [], s, []);
  }

  /** The text of a value is a replacement pattern: a variable holding the text `$&`
      puts the placeholder itself back, so the string reads unchanged. */
  lemma DollarPatternInValue(fuel: nat, st: State, name: string)
    requires IsName(name) && Lookup(st.vars, name) == Ok(StringNode("$&"))
    ensures Eval(fuel, st, Lit(StringNode("{" + name + "}"))) == Run(Ok(StringNode("{" + name + "}")), st)
  {
    var s := "{" + name + "}";
    InterpolateOne(st.vars, name);
    ReplaceWhole(s, "$&");
    ExpandMatched(s);
  }

  /** `$&` expands to the matched text. */
  lemma ExpandMatched(matched: string)
    ensures Expand("$&", [], matched, []) == matched
  {
    var rep := "$&";
    assert |rep| == 2 && rep[0] == '$' && rep[1] == '&' && rep[2..] == [];
    assert Expand(rep[2..], [], matched, []) == [];
  }

  /** A placeholder naming an unbound variable throws ReferenceError. */
  lemma PlaceholderUnbound(fuel: nat, st: State, name: string)
    requires IsName(name) && Lookup(st.vars, name).Err?
    ensures Eval(fuel, st, Lit(StringNode("{" + name + "}"))) == Run(Err(Thrown(ReferenceError, None)), st)
  {
    InterpolateOne(st.vars, name);
    LookupFails(st.vars, name);
  }

  /** Interpolation throws exactly when some placeholder of the string names a variable
      no frame binds, and then it throws ReferenceError. */
  lemma InterpolateFails(vars: seq<Frame>, s: string)
    ensures Interpolate(vars, s).Err? <==>
      exists p :: p in Placeholders(s, 0) && Lookup(vars, PlaceholderName(p)).Err?
    ensures Interpolate(vars, s).Err? ==> Interpolate(vars, s).error == Thrown(ReferenceError, None)
  {
    var holes := Placeholders(s, 0);
    if exists p :: p in holes && Lookup(vars, PlaceholderName(p)).Err? {
      var p :| p in holes && Lookup(vars, PlaceholderName(p)).Err?;
      var k :| 0 <= k < |holes| && holes[k] == p;
    }
  }

  /** Every `{name}` in a string literal is looked up, wherever it stands: one whose
      variable is unbound makes the literal throw ReferenceError. */
  lemma UnboundPlaceholderThrows(fuel: nat, st: State, s: string, k: nat, j: nat)
    requires PlaceholderAt(s, k, j) && Lookup(st.vars, s[k + 1..j - 1]).Err?
    ensures Eval(fuel, st, Lit(StringNode(s))) == Run(Err(Thrown(ReferenceError, None)), st)
  {
    UnboundPlaceholderFails(st.vars, s, k, j);
    assert Eval(fuel, st, Lit(StringNode(s))) == Run(Interpolate(st.vars, s), st);
  }

  lemma UnboundPlaceholderFails(vars: seq<Frame>, s: string, k: nat, j: nat)
    requires PlaceholderAt(s, k, j) && Lookup(vars, s[k + 1..j - 1]).Err?
    ensures Interpolate(vars, s) == Err(Thrown(ReferenceError, None))
  {
    PlaceholdersComplete(s, 0, k, j);
    var p := s[k..j];
    var name, inner := s[k + 1..j - 1], p[1..|p| - 1];
    assert |p| == j - k && |inner| == |name|;
    forall m | 0 <= m < |inner| ensures inner[m] == name[m] {
      assert inner[m] == p[m + 1] == s[k + 1 + m];
    }
    assert inner == name;
    assert PlaceholderName(p) == name;
    InterpolateFails(vars, s);
  }

  /** Reading a variable evaluates the stored literal again, so a stored string is
      interpolated anew with the variables as they are at the read. */
  lemma StoredStringReinterpolated(fuel: nat, st: State, x: string, s: string)
    requires Lookup(st.vars, x) == Ok(StringNode(s))
    ensures Eval(fuel, st, IdentifierNode(x)) == Eval(fuel, st, Lit(StringNode(s)))
  {
  }
}
