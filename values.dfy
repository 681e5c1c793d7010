/** Run-time values of the interpreter (src/interpreter/Interpreter.ts): what a literal
    means as a condition, the typed arithmetic, comparison and logic on literals, the
    unevaluated negation, string interpolation, and the builtin signature table. */
module Values {

  import opened Base
  import opened Ast
  import opened Numerals

  /** The class of error an operation throws. `PlainError` is a bare `Error`. */
  datatype ErrorKind = SyntaxError | ReferenceError | TypeError | PlainError

  /** Why a run stops. `Thrown` is an exception of the interpreter, or of the host when
      the code reads a property of `undefined`; `line` is present when the message names
      a line. `Unrepresentable` is a host value the model does not represent (a fraction,
      an infinity, NaN, a loose comparison across types, closed standard input).
      `OutOfFuel` is the bound on calls and loop iterations running out. */
  datatype Failure = Thrown(kind: ErrorKind, line: Option<nat>) | Unrepresentable | OutOfFuel

  /** JavaScript truthiness of a literal's `value` field. */
  predicate Truthy(lit: LiteralNode)
  {
    match lit.Value()
    case HostString(s) => s != ""
    case HostNumber(n) => n != 0
    case HostBool(b) => b
  }

  /** Exactly the empty string, zero and `false` are falsy; a `NoneNode`, whose value is
      the text 'None', counts as true. */
  lemma FalsyLiterals(lit: LiteralNode)
    ensures !Truthy(lit) <==> lit in {StringNode(""), NumberNode(0), BooleanNode(false)}
    ensures Truthy(NoneNode)
  {
  }

  /** `String(value)`: the text a literal's value turns into when it is interpolated or
      passed to `string`. */
  function HostText(v: HostValue): (r: string)
    ensures v.HostBool? ==> r == (if v.b then "true" else "false")
    ensures v.HostString? ==> r == v.s
  {
    match v
    case HostString(s) => s
    case HostNumber(n) => IntToString(n)
    case HostBool(b) => if b then "true" else "false"
  }

  /** `evaluateArithmeticExpression` once both operands are evaluated: `str + str`
      concatenates, every other case needs two numbers. Division is modelled on integers:
      a quotient that is not a whole number, or a division by zero, is a double the model
      does not represent. */
  function Arithmetic(op: ArithOp, l: LiteralNode, r: LiteralNode): Result<LiteralNode, Failure>
  {
    if l.StringNode? && r.StringNode? && op == Add then Ok(StringNode(l.s + r.s))
    else if !l.NumberNode? || !r.NumberNode? then Err(Thrown(TypeError, None))
    else
      match op
      case Add => Ok(NumberNode(l.n + r.n))
      case Sub => Ok(NumberNode(l.n - r.n))
      case Mul => Ok(NumberNode(l.n * r.n))
      case Div => if r.n != 0 && l.n % r.n == 0 then Ok(NumberNode(l.n / r.n)) else Err(Unrepresentable)
  }

  /** The operand types arithmetic accepts: two strings under `+`, otherwise two numbers;
      anything else throws a TypeError without a line. */
  lemma ArithmeticTyping(op: ArithOp, l: LiteralNode, r: LiteralNode)
    ensures Arithmetic(op, l, r) == Err(Thrown(TypeError, None))
            <==> !(l.NumberNode? && r.NumberNode?) && !(op == Add && l.StringNode? && r.StringNode?)
    ensures op == Add && l.StringNode? && r.StringNode? ==> Arithmetic(op, l, r) == Ok(StringNode(l.s + r.s))
    ensures Arithmetic(op, l, r).Ok? ==> Arithmetic(op, l, r).value.TypeOf() == l.TypeOf() == r.TypeOf()
  {
  }

  /** Division gives a number exactly when the divisor is nonzero and divides the
      dividend, and that number times the divisor is the dividend. */
  lemma DivisionIsExact(a: int, b: int)
    ensures Arithmetic(Div, NumberNode(a), NumberNode(b)).Ok? <==> b != 0 && a % b == 0
    ensures Arithmetic(Div, NumberNode(a), NumberNode(b)).Ok? ==> Arithmetic(Div, NumberNode(a), NumberNode(b)).value.n * b == a
  {
  }

  /** Strict order of texts, character by character, a proper prefix first. Characters
      compare by code point; JavaScript compares UTF-16 code units, which orders the
      same way inside the Basic Multilingual Plane. */
  predicate TextLess(a: string, b: string)
  {
    if |a| == 0 then |b| > 0
    else if |b| == 0 then false
    else if a[0] != b[0] then a[0] < b[0]
    else TextLess(a[1..], b[1..])
  }

  /** The text order is a strict total order: irreflexive and trichotomous. */
  lemma {:induction false} TextOrderTotal(a: string, b: string)
    ensures !TextLess(a, a)
    ensures a == b || TextLess(a, b) || TextLess(b, a)
    ensures !(TextLess(a, b) && TextLess(b, a))
  {
    if |a| > 0 && |b| > 0 {
      TextOrderTotal(a[1..], b[1..]);
      TextOrderTotal(a[1..], a[1..]);
      if a[0] == b[0] && a[1..] == b[1..] {
        assert a == [a[0]] + a[1..] && b == [b[0]] + b[1..];
      }
    } else if |a| > 0 {
      TextOrderTotal(a[1..], a[1..]);
    }
  }

  function BoolNumber(b: bool): int { if b then 1 else 0 }

  /** `evaluateConditionalExpression` once both operands are evaluated: the values are
      compared as JavaScript does for two values of one host type (texts by code units,
      booleans as 0 and 1). Values of different host types are compared by loose
      coercion, which the model does not represent. A NoneNode's value is the text
      'None', so it compares as that text. */
  function Compare(op: CmpOp, l: LiteralNode, r: LiteralNode): Result<bool, Failure>
  {
    match (l.Value(), r.Value())
    case (HostString(a), HostString(b)) => Ok(Ordered(op, a == b, TextLess(a, b), TextLess(b, a)))
    case (HostNumber(a), HostNumber(b)) => Ok(Ordered(op, a == b, a < b, b < a))
    case (HostBool(a), HostBool(b)) => Ok(Ordered(op, a == b, BoolNumber(a) < BoolNumber(b), BoolNumber(b) < BoolNumber(a)))
    case _ => Err(Unrepresentable)
  }

  /** A comparison operator applied to the outcome of comparing two values. */
  function Ordered(op: CmpOp, equal: bool, less: bool, greater: bool): bool
  {
    match op
    case Eq => equal
    case Neq => !equal
    case Gt => greater
    case Lt => less
    case Gte => greater || equal
    case Lte => less || equal
  }

  /** For values of one host type, `!=` is the negation of `==`, `>=` of `<` and `<=` of
      `>`, and `>` is `<` with the operands swapped. */
  lemma ComparisonDuality(l: LiteralNode, r: LiteralNode)
    requires Compare(Eq, l, r).Ok?
    ensures Compare(Neq, l, r).Ok? && Compare(Neq, l, r).value == !Compare(Eq, l, r).value
    ensures Compare(Gte, l, r).Ok? && Compare(Lt, l, r).Ok? && Compare(Gte, l, r).value == !Compare(Lt, l, r).value
    ensures Compare(Lte, l, r).Ok? && Compare(Gt, l, r).Ok? && Compare(Lte, l, r).value == !Compare(Gt, l, r).value
    ensures Compare(Gt, r, l) == Compare(Lt, l, r)
    ensures Compare(Eq, l, r).value <==> l.Value() == r.Value()
  {
    match (l.Value(), r.Value())
    case (HostString(a), HostString(b)) =>
      TextOrderTotal(a, b);
    case (HostNumber(a), HostNumber(b)) =>
    case (HostBool(a), HostBool(b)) =>
  }

  /** `evaluateLogicalExpression`: both operands are evaluated, and the result is a
      boolean made from their truthiness. */
  function Logical(op: LogicOp, l: LiteralNode, r: LiteralNode): (b: bool)
    ensures op == AndOp ==> (b <==> Truthy(l) && Truthy(r))
    ensures op == OrOp ==> (b <==> Truthy(l) || Truthy(r))
  {
    match op
    case AndOp => Truthy(l) && Truthy(r)
    case OrOp => Truthy(l) || Truthy(r)
  }

  /** The negation case of `evaluateExpression`: the operand node is not evaluated, and
      its own `value` field is negated. A number literal negates; `-true` is -1 and
      `-false` is 0. Every other operand (a string, None, a variable, a nested
      expression) makes a value the model does not represent. */
  function Negate(operand: Expr): (r: Result<LiteralNode, Failure>)
    ensures r.Ok? ==> r.value.NumberNode?
    ensures r.Ok? <==> operand.Lit? && (operand.lit.NumberNode? || operand.lit.BooleanNode?)
  {
    match operand
    case Lit(NumberNode(n)) => Ok(NumberNode(-n))
    case Lit(BooleanNode(b)) => Ok(NumberNode(if b then -1 else 0))
    case _ => Err(Unrepresentable)
  }

  /** Negation reads the operand node, never its value: a negated variable or a
      doubly negated number does not give a number, while a negated number literal
      gives its negation. */
  lemma NegationIsSyntactic(n: int, name: string)
    ensures Negate(Lit(NumberNode(n))) == Ok(NumberNode(-n))
    ensures Negate(NegationNode(Lit(NumberNode(n)))) == Err(Unrepresentable)
    ensures Negate(IdentifierNode(name)) == Err(Unrepresentable)
  {
  }

  // ---------------------------------------------------------------------------
  // String interpolation (`evaluateString`)

  predicate NameStart(c: char) { 'a' <= c <= 'z' || 'A' <= c <= 'Z' || c == '_' }

  predicate NameChar(c: char) { NameStart(c) || IsDigit(c) }

  /** A name the placeholder pattern accepts: a letter or `_`, then letters, digits or
      `_`. The two alternatives of the pattern together accept exactly these. */
  predicate IsName(s: string)
  {
    |s| > 0 && NameStart(s[0]) && forall i :: 1 <= i < |s| ==> NameChar(s[i])
  }

  /** The end of the run of name characters starting at `k`. */
  function NameEnd(s: string, k: nat): (r: nat)
    requires k <= |s|
    ensures k <= r <= |s| && (r < |s| ==> !NameChar(s[r]))
    ensures forall i :: k <= i < r ==> NameChar(s[i])
    decreases |s| - k
  {
    if k < |s| && NameChar(s[k]) then NameEnd(s, k + 1) else k
  }

  /** Where a placeholder `{name}` starting at `i` ends, if one starts there. */
  function PlaceholderEnd(s: string, i: nat): (r: Option<nat>)
    requires i <= |s|
    ensures r.Some? ==> i + 3 <= r.value <= |s| && s[i] == '{' && s[r.value - 1] == '}' && IsName(s[i + 1..r.value - 1])
  {
    if i + 1 < |s| && s[i] == '{' && NameStart(s[i + 1]) then
      var k := NameEnd(s, i + 2);
      if k < |s| && s[k] == '}' then Some(k + 1) else None
    else None
  }

  /** `value.match(regex)` with the global flag: the placeholders of `s` from `i` on, left
      to right and without overlap. */
  function Placeholders(s: string, i: nat): (r: seq<string>)
    requires i <= |s|
    ensures forall p :: p in r ==> |p| >= 3 && p[0] == '{' && p[|p| - 1] == '}' && IsName(p[1..|p| - 1])
    decreases |s| - i
  {
    if i == |s| then []
    else match PlaceholderEnd(s, i)
      case Some(j) =>
        assert s[i..j][1..|s[i..j]| - 1] == s[i + 1..j - 1];
        [s[i..j]] + Placeholders(s, j)
      case None => Placeholders(s, i + 1)
  }

  /** `s[k..j]` is a placeholder: an opening brace, a name and a closing brace. */
  predicate PlaceholderAt(s: string, k: nat, j: nat)
  {
    k + 3 <= j <= |s| && s[k] == '{' && s[j - 1] == '}' && IsName(s[k + 1..j - 1])
  }

  /** The global match misses no placeholder: every `{name}` of `s` from `i` on is among
      the matches. A brace opens no name, so no match can swallow the start of another
      placeholder. */
  lemma {:induction false} PlaceholdersComplete(s: string, i: nat, k: nat, j: nat)
    requires i <= k && PlaceholderAt(s, k, j)
    ensures s[k..j] in Placeholders(s, i)
    decreases |s| - i
  {
    if i == k {
      var name := s[k + 1..j - 1];
      assert forall m :: k + 2 <= m < j - 1 ==> s[m] == name[m - k - 1] && NameChar(s[m]);
      NameRun(s, k + 2, j - 1);
      assert PlaceholderEnd(s, k) == Some(j);
    } else {
      match PlaceholderEnd(s, i)
      case None =>
        PlaceholdersComplete(s, i + 1, k, j);
      case Some(e) =>
        PlaceholdersComplete(s, e, k, j);
    }
  }

  /** The name inside a placeholder: `identifier.slice(1, -1)`. */
  function PlaceholderName(p: string): string
  {
    if |p| < 2 then "" else p[1..|p| - 1]
  }

  /** A text without an opening brace holds no placeholder. */
  lemma {:induction false} NoBraceNoPlaceholders(s: string, i: nat)
    requires i <= |s| && forall k :: i <= k < |s| ==> s[k] != '{'
    ensures Placeholders(s, i) == []
    decreases |s| - i
  {
    if i < |s| {
      NoBraceNoPlaceholders(s, i + 1);
    }
  }

  /** A text that is one placeholder is found whole. */
  lemma SinglePlaceholder(name: string)
    requires IsName(name)
    ensures Placeholders("{" + name + "}", 0) == ["{" + name + "}"]
  {
    var s := "{" + name + "}";
    assert forall i :: 2 <= i < |s| - 1 ==> s[i] == name[i - 1] && NameChar(s[i]);
    NameRun(s, 2, |s| - 1);
    assert s[0..|s|] == s;
  }

  lemma {:induction false} NameRun(s: string, k: nat, e: nat)
    requires k <= e < |s| && !NameChar(s[e]) && forall i :: k <= i < e ==> NameChar(s[i])
    ensures NameEnd(s, k) == e
    decreases e - k
  {
    if k < e {
      NameRun(s, k + 1, e);
    }
  }

  /** `pat` occurs in `s` at index `k`. */
  predicate OccursAt(s: string, pat: string, k: nat)
  {
    k + |pat| <= |s| && s[k..k + |pat|] == pat
  }

  /** The first index at or after `from` where `pat` occurs in `s`. */
  function FindFrom(s: string, pat: string, from: nat): (r: Option<nat>)
    requires from <= |s|
    ensures r.Some? ==> from <= r.value && OccursAt(s, pat, r.value)
    ensures r.Some? ==> forall k :: from <= k < r.value ==> !OccursAt(s, pat, k)
    ensures r.None? ==> forall k :: from <= k ==> !OccursAt(s, pat, k)
    decreases |s| - from
  {
    if from + |pat| > |s| then None
    else if OccursAt(s, pat, from) then Some(from)
    else FindFrom(s, pat, from + 1)
  }

  /** The replacement text of `String.prototype.replace` with a text pattern: `$$` is a
      dollar, `$&` the matched text, `` $` `` the text before the match and `$'` the text
      after it; every other character, `$` included, stands for itself. */
  function Expand(rep: string, before: string, matched: string, after: string): string
    decreases |rep|
  {
    if |rep| >= 2 && rep[0] == '$' && rep[1] in "$&`'" then
      (match rep[1]
       case '$' => "$"
       case '&' => matched
       case '`' => before
       case _ => after)
      + Expand(rep[2..], before, matched, after)
    else if |rep| == 0 then ""
    else [rep[0]] + Expand(rep[1..], before, matched, after)
  }

  /** A replacement without `$` is inserted as it is. */
  lemma {:induction false} ExpandWithoutDollar(rep: string, before: string, matched: string, after: string)
    requires '$' !in rep
    ensures Expand(rep, before, matched, after) == rep
    decreases |rep|
  {
    if |rep| > 0 {
      assert rep[0] != '$';
      ExpandWithoutDollar(rep[1..], before, matched, after);
      assert rep == [rep[0]] + rep[1..];
    }
  }

  /** `s.replace(pat, rep)`: only the first occurrence is replaced, and a text without
      an occurrence is returned as it is. */
  function ReplaceFirst(s: string, pat: string, rep: string): string
  {
    match FindFrom(s, pat, 0)
    case None => s
    case Some(k) => s[..k] + Expand(rep, s[..k], pat, s[k + |pat|..]) + s[k + |pat|..]
  }

  /** Replacing splits the text around the first occurrence of the pattern: what comes
      before holds no occurrence, and a plain replacement lands in its place. */
  lemma ReplaceFirstSplits(s: string, pat: string, rep: string, k: nat)
    requires '$' !in rep && OccursAt(s, pat, k) && forall j :: 0 <= j < k ==> !OccursAt(s, pat, j)
    ensures ReplaceFirst(s, pat, rep) == s[..k] + rep + s[k + |pat|..]
  {
    var r := FindFrom(s, pat, 0);
    assert r == Some(k);
    ExpandWithoutDollar(rep, s[..k], pat, s[k + |pat|..]);
  }

  /** A text in which the pattern does not occur is left as it is. */
  lemma ReplaceAbsent(s: string, pat: string, rep: string)
    requires forall j :: 0 <= j ==> !OccursAt(s, pat, j)
    ensures ReplaceFirst(s, pat, rep) == s
  {
  }

  /** The `forEach` of `evaluateString`: each placeholder in turn is replaced, at its
      first occurrence in the text as it stands, by the text of its value. */
  function FillIn(s: string, holes: seq<string>, texts: seq<string>): string
    requires |holes| == |texts|
    decreases |holes|
  {
    if |holes| == 0 then s else FillIn(ReplaceFirst(s, holes[0], texts[0]), holes[1..], texts[1..])
  }

  /** Replacing placeholder `k` in a text that still has placeholders `k..` to fill
      leaves the ones after it. */
  lemma FillInStep(s: string, holes: seq<string>, texts: seq<string>, k: nat, text: string)
    requires |holes| == |texts| && k < |holes|
    requires FillIn(s, holes, texts) == FillIn(text, holes[k..], texts[k..])
    ensures FillIn(s, holes, texts) == FillIn(ReplaceFirst(text, holes[k], texts[k]), holes[k + 1..], texts[k + 1..])
  {
    assert holes[k..][1..] == holes[k + 1..];
    assert texts[k..][1..] == texts[k + 1..];
  }

  /** With no placeholders the text is unchanged. */
  lemma FillInNothing(s: string)
    ensures FillIn(s, [], []) == s
  {
  }

  // ---------------------------------------------------------------------------
  // Builtins (src/builtins/)

  datatype Builtin = Builtin(paramsType: seq<Type>, requiredArgs: nat, returnType: Type)

  /** The registry `{input, string, number}`, as the own keys of the object literal. */
  function BuiltinSignature(name: string): Option<Builtin>
  {
    if name == "input" then Some(Builtin([StrType], 1, StrType))
    else if name == "number" then Some(Builtin([StrType], 1, NumType))
    else if name == "string" then Some(Builtin([NumType], 1, StrType))
    else None
  }

  /** The members the registry object inherits from `Object.prototype`. Looking one up
      gives a truthy value with no `paramsType`, and reading its length throws. */
  const InheritedNames: set<string> := {
    "constructor", "__defineGetter__", "__defineSetter__", "hasOwnProperty",
    "__lookupGetter__", "__lookupSetter__", "isPrototypeOf", "propertyIsEnumerable",
    "toString", "valueOf", "__proto__", "toLocaleString"
  }

  /** Every builtin takes exactly one argument and returns a text or a number. */
  lemma BuiltinShapes(name: string)
    requires BuiltinSignature(name).Some?
    ensures BuiltinSignature(name).value.requiredArgs == |BuiltinSignature(name).value.paramsType| == 1
    ensures BuiltinSignature(name).value.returnType in {StrType, NumType}
    ensures name !in InheritedNames
  {
  }

  /** `Number(text)` where the model represents it: digits give their value and the
      empty text gives 0. */
  function NumberOf(s: string): (r: Result<int, Failure>)
    ensures r.Ok? ==> r.value >= 0
  {
    if s == "" then Ok(0)
    else if IsDecimal(s) then Ok(DecimalValue(s))
    else Err(Unrepresentable)
  }

  /** `number` reads back what `string` writes for a whole number that is not negative. */
  lemma NumberOfText(n: nat)
    ensures NumberOf(HostText(HostNumber(n))) == Ok(n)
  {
    DecimalValueOfNatToString(n);
  }
}
