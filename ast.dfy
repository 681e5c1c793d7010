/** The abstract syntax tree (src/parser/AST.ts): immutable nodes, one datatype per
    node category. */
module Ast {

  import opened Base

  /** The type domain of values: 'str' | 'num' | 'none' | 'bool'. */
  datatype Type = StrType | NumType | NoneType | BoolType
  {
    /** The type's name, the text a value's `type` field holds. */
    function Name(): string {
      match this
      case StrType => "str"
      case NumType => "num"
      case NoneType => "none"
      case BoolType => "bool"
    }
  }

  /** A `TypeAnnotation` object. `name` is the text of the annotation token it was read
      from (the parser casts that text to the type domain without checking it), and
      `ref` stands for the object's identity: the parser creates a new annotation for
      every one it reads and gives it the index of the token it was read from, so two
      annotations are the same object exactly when they are equal. */
  datatype TypeAnnotation = Annotation(name: string, ref: nat)

  /** The host value a literal carries in its `value` field. */
  datatype HostValue = HostString(s: string) | HostNumber(n: int) | HostBool(b: bool)

  /** Literal nodes. Each variant fixes the literal's type tag. */
  datatype LiteralNode = StringNode(s: string) | NumberNode(n: int) | BooleanNode(b: bool) | NoneNode
  {
    /** The `type` field. */
    function TypeOf(): Type {
      match this
      case StringNode(_) => StrType
      case NumberNode(_) => NumType
      case BooleanNode(_) => BoolType
      case NoneNode => NoneType
    }

    /** The `value` field; a NoneNode's value is the text 'None'. */
    function Value(): HostValue {
      match this
      case StringNode(s) => HostString(s)
      case NumberNode(n) => HostNumber(n)
      case BooleanNode(b) => HostBool(b)
      case NoneNode => HostString("None")
    }
  }

  /** The type domain has exactly four names, one per type. */
  lemma TypeNamesDistinct(t: Type, u: Type)
    ensures t.Name() in ["str", "num", "none", "bool"]
    ensures t.Name() == u.Name() <==> t == u
  {
  }

  /** A literal's variant fixes its type tag, and its `value` field holds a host value
      of that type; a NoneNode's value is the text 'None'. */
  lemma LiteralTags(lit: LiteralNode)
    ensures lit.StringNode? <==> lit.TypeOf() == StrType
    ensures lit.NumberNode? <==> lit.TypeOf() == NumType
    ensures lit.BooleanNode? <==> lit.TypeOf() == BoolType
    ensures lit.NoneNode? <==> lit.TypeOf() == NoneType
    ensures lit.Value().HostNumber? <==> lit.TypeOf() == NumType
    ensures lit.Value().HostBool? <==> lit.TypeOf() == BoolType
    ensures lit.Value().HostString? <==> lit.TypeOf() in {StrType, NoneType}
    ensures lit.NoneNode? ==> lit.Value() == HostString("None")
  {
  }

  datatype ArithOp = Add | Sub | Mul | Div
  datatype CmpOp = Eq | Neq | Gt | Lt | Gte | Lte
  datatype LogicOp = AndOp | OrOp

  /** Expression nodes. */
  datatype Expr =
    | Lit(lit: LiteralNode)
    | IdentifierNode(name: string)
    | ArithmeticNode(aop: ArithOp, left: Expr, right: Expr)
    | NegationNode(operand: Expr)
    | ConditionalNode(cop: CmpOp, left: Expr, right: Expr)
    | LogicalNode(lop: LogicOp, left: Expr, right: Expr)
    | FunctionCallNode(name: string, args: seq<Expr>, line: nat)

  /** A block: the statements in order. */
  datatype Program = Program(statements: seq<Stmt>)

  /** A parameter: its name and its annotation. */
  datatype Param = Param(paramName: string, paramType: TypeAnnotation)

  /** A function definition: parameters with annotations, a return annotation, a body. */
  datatype FunctionDef = FunctionDef(name: string, params: seq<Param>, returnType: TypeAnnotation, body: Program, line: nat)

  /** An `else if` branch (`IfStatementNode`). */
  datatype IfBranch = IfBranch(cond: Expr, block: Program, line: nat)

  /** A trailing `else` (`ElseStatementNode`). */
  datatype ElseBranch = ElseBranch(block: Program, line: nat)

  /** Statement nodes; a function call used as a statement is `CallStatement`. */
  datatype Stmt =
    | VariableDeclarationNode(name: string, varType: TypeAnnotation, value: Expr, line: nat)
    | AssignmentNode(name: string, value: Expr, line: nat)
    | PrintNode(args: seq<Expr>, line: nat)
    | FunctionDefinitionNode(def: FunctionDef)
    | CallStatement(name: string, args: seq<Expr>, line: nat)
    | ReturnNode(value: Expr, line: nat)
    | IfElseNode(cond: Expr, ifBlock: Program, line: nat, elseIfs: seq<IfBranch>, elseBlock: Option<ElseBranch>)
    | WhileNode(cond: Expr, block: Program, line: nat)
  {
    /** Every statement node carries a line. */
    function Line(): nat {
      match this
      case VariableDeclarationNode(_, _, _, line) => line
      case AssignmentNode(_, _, line) => line
      case PrintNode(_, line) => line
      case FunctionDefinitionNode(def) => def.line
      case CallStatement(_, _, line) => line
      case ReturnNode(_, line) => line
      case IfElseNode(_, _, line, _, _) => line
      case WhileNode(_, _, line) => line
    }
  }
}
