# nothscript, modelled in Dafny

nothscript is a small typed scripting language with a tree-walking interpreter written
in TypeScript. A program goes through three stages:

- **Lexing.** The source text is split into chunks by one regular expression. Each chunk
  becomes a token: the keyword/operator table (`src/lexer/Token.ts`) is tried first, then
  the string, number and identifier shapes. Newline chunks only count lines.
- **Parsing.** A recursive-descent parser with a cursor over the tokens
  (`src/parser/Parser.ts`) builds the syntax tree of `src/parser/AST.ts`. `+ -` bind
  looser than `* /`, and both bind tighter than the comparison and logical operators.
  All binary operators associate to the left.
- **Interpreting.** The interpreter (`src/interpreter/Interpreter.ts`) walks the tree. It
  keeps variables in a `VariableTable` and functions in a `FunctionTable`. Each table is
  a map from scope paths (`global`, `global=>if`, …) to frames, with one current path.
  Functions are overloaded by parameter types. Strings are interpolated with `{name}`
  placeholders. `input`, `number` and `string` are builtins.

The model follows the same stages:

| file | module | what it holds |
|---|---|---|
| `base.dfy` | `Base` | `Option` and `Result` |
| `tokens.dfy` | `Tokens` | token kinds, tokens, the classification table |
| `numerals.dfy` | `Numerals` | decimal digit text of naturals |
| `lexer.dfy` | `Lexing` | the lexer as a function `Lex` and as the class `Lexer` |
| `ast.dfy` | `Ast` | the syntax tree |
| `grammar.dfy` | `Grammar` | the parser as pure functions over a token list and a position |
| `parser.dfy` | `Parsing` | the class `Parser`, each method proved equal to its `Grammar` function |
| `printer.dfy` | `Printing` | a printer of expressions, and the proof that parsing reads its output back |
| `programprinter.dfy` | `ProgramPrinting` | a printer of statements and programs, and the proof that parsing reads a printed program back |
| `values.dfy` | `Values` | runtime values, operators, truthiness, interpolation text, builtin signatures |
| `variables.dfy` | `Variables` | the variable table as a stack of frames |
| `functions.dfy` | `Functions` | the function table as a stack of frames, with overload resolution |
| `scopepaths.dfy` | `ScopePaths` | the path-keyed representation the source uses, proved to behave as the stack |
| `semantics.dfy` | `Semantics` | the interpreter as functions on a state, with fuel |
| `behaviour.dfy` | `Behaviour` | properties of the semantics |
| `interpreter.dfy` | `Interpreting` | the class `Interpreter`, each method proved equal to its `Semantics` function |

The state of the semantics holds four things:

- the variable frames;
- the function frames;
- the output, a list of printed lines and input prompts;
- the input lines not yet read.

An evaluation returns a result and the state it leaves. An error keeps the state that
was current when it was thrown. Errors carry the kind of the JavaScript error the source
throws (`SyntaxError`, `TypeError`, `ReferenceError`, or a plain `Error`) and the line
when the source reports one. The exact message text is not modelled.

## Model

| member | source | states |
|---|---|---|
| Tokens.PositionsOfEntries | src/lexer/Token.ts:63-98 | each table entry sits at the index its key names |
| Tokens.KeysDistinct | src/lexer/Token.ts:63-98 | no two table entries share a key, so the Map is a function of the text |
| Tokens.LookupIsTable | src/lexer/Token.ts:63-98 | `token.get` returns kind k for a text exactly when the table pairs that text with k, and nothing exactly when the text is no key |
| Tokens.EntriesAreFound | src/lexer/Token.ts:63-98 | every entry's text is found with the entry's kind |
| Tokens.NotAKey | src/lexer/Token.ts:63-98 | a text that is no entry's key is not found |
| Tokens.AnnotationAndBooleanTexts | src/lexer/Token.ts:91-96 | exactly `str`, `num`, `none` and `bool` map to TYPE_ANNOTATION, and exactly `true` and `false` map to BOOLEAN |
| Tokens.TableNeverGivesShapeKinds | src/lexer/Token.ts:63-98 | the table never yields IDENTIFIER, STRING, NUMBER or NEW_LINE |
| Lexing.ClassifyTableFirst | src/lexer/Lexer.ts:28-45 | a table key always gets its table kind; any other chunk gets a shape kind; the chunk is rejected, with its text and line, exactly when it is no key and matches no shape |
| Lexing.ShapeOrder | src/lexer/Lexer.ts:34-38 | outside the table, the string shape wins over the number shape, and the number shape wins over the identifier shape |
| Lexing.NameWithDigitIsNumber | src/lexer/Lexer.ts:35 | the number test is unanchored, so the chunk `x1` is lexed as a NUMBER |
| Lexing.LexOutput | src/lexer/Lexer.ts:47-65 | on success there is one token per non-newline chunk, in order, with the chunk's text, the chunk's kind, and the start line plus the newlines before it |
| Lexing.RejectionIgnoresLine | src/lexer/Lexer.ts:28-45 | whether a chunk is rejected does not depend on its line |
| Lexing.LexFailure | src/lexer/Lexer.ts:47-65 | lexing fails exactly when some non-newline chunk matches no class |
| Lexing.LexFailureIsFirst | src/lexer/Lexer.ts:41-44 | the error names the first rejected chunk and the line it is on; every chunk before it classifies |
| Lexing.LexedTokensWellFormed | src/lexer/Lexer.ts:47-65 | every emitted token has a positive line and is not a newline; a type annotation token's text is one of the four type names |
| Lexing.NewlineChunk | src/lexer/Lexer.ts:53-57 | a newline chunk emits nothing and advances the line by exactly one |
| Lexing.FirstTokenOnLineOne | src/lexer/Lexer.ts:25 | the first token of a text that does not start with a newline is on line 1 |
| Lexing.Lexer.constructor | src/lexer/Lexer.ts:22-26 | on a split that found chunks, the first chunk is under the cursor, the rest are queued, and the line is 1 |
| Lexing.Lexer.Shift | src/lexer/Lexer.ts:24 | `src.shift() \|\| null`: the next chunk moves under the cursor (none when the queue is empty), and the line is unchanged |
| Lexing.Lexer.GetTokens | src/lexer/Lexer.ts:47-69 | the loop returns exactly `Lex` of the cursor chunk and the queue, from the current line |
| Lexing.LexSource | src/lexer/Lexer.ts:22-69 | building the lexer on the split of the source and running `lex` gives `Tokenize`: an empty split throws, and any other is lexed from line 1 |
| Lexing.TokenizeOutcome | src/lexer/Lexer.ts:22-69 | an empty split throws, rather than giving an empty program; any other split fails exactly when some non-newline chunk classifies as nothing, and otherwise gives one token per non-newline chunk |
| Numerals.NatToString | src/parser/Parser.ts:192-196 | the decimal text of a natural is non-empty, all digits, and has no leading zero |
| Numerals.DecimalValueOfNatToString | src/parser/Parser.ts:192-196 | reading back the decimal text of a natural gives the natural |
| Ast.TypeNamesDistinct | src/parser/AST.ts:11 | the type domain is the four names `str`, `num`, `none` and `bool`, one per type |
| Ast.LiteralTags | src/parser/AST.ts:22-49 | each literal variant has its own type tag and a value of that type; a NoneNode's value is `None` |
| Grammar.Binary | src/parser/Parser.ts:79-175 | each precedence level consumes at least one token on success and stays within the tokens |
| Grammar.Operand | src/parser/Parser.ts:79-175 | a level's operand parser, one level tighter, consumes at least one token on success |
| Grammar.Tail | src/parser/Parser.ts:82-96 | a level's operator loop never moves the cursor back and stays within the tokens |
| Grammar.Factor | src/parser/Parser.ts:177-222 | `parseFactor` consumes at least one token on success |
| Grammar.NamedFactor | src/parser/Parser.ts:178-186 | a factor that starts with a name consumes at least the name |
| Grammar.Parenthesised | src/parser/Parser.ts:208-214 | a parenthesised expression consumes at least the `(` |
| Grammar.UnquoteQuoted | src/parser/Parser.ts:191 | `slice(1, -1)` undoes quoting: a text with a character added at each end comes back unchanged |
| Grammar.Call | src/parser/Parser.ts:358-375 | a parsed call is a FunctionCallNode with the given name and the line current at its `(` |
| Grammar.FirstArgument | src/parser/Parser.ts:363-365 | the optional first argument never moves the cursor back |
| Grammar.Arguments | src/parser/Parser.ts:367-370 | the comma loop only appends to the arguments read so far |
| Grammar.VariableDeclaration | src/parser/Parser.ts:224-244 | a SyntaxError at the line of the first token after the `:` that is not the type annotation or the `=`; otherwise the node holds the name, the annotation read from the token after `:`, the expression `parseExpression` reads after `=` and the line at the `:`, and reading ends after the `;` |
| Grammar.DeclaredValue | src/parser/Parser.ts:235-243 | succeeds exactly when an expression and then `;` follow, and then gives the declaration of that expression with the given name, annotation and line, ending after the `;` |
| Grammar.AssignmentStatement | src/parser/Parser.ts:246-260 | succeeds exactly when an expression and then `;` follow the `=`, and then assigns that expression to the name, on the line at the `=`, ending after the `;` |
| Grammar.PrintStatement | src/parser/Parser.ts:262-277 | the arguments are the expression after `print` followed by those the comma loop reads, then a `;`; the node carries the line at `print` |
| Grammar.ReturnStatement | src/parser/Parser.ts:293-300 | succeeds exactly when an expression and then `;` follow, and then returns that expression with the line current at it, ending after the `;` |
| Grammar.Parameter | src/parser/Parser.ts:279-291 | a parameter is exactly a name, `:` and a type annotation, and takes three tokens |
| Grammar.Parameters | src/parser/Parser.ts:312-319 | the parameter loop stops only at `{`, `::` or `=>` and only appends |
| Grammar.FunctionDefinition | src/parser/Parser.ts:302-356 | a SyntaxError when no name follows `fn`; otherwise the definition holds the name, the parameters and return type that `Signature` reads, the body that `FunctionBody` reads and the line at `fn` |
| Grammar.Signature | src/parser/Parser.ts:309-326 | the parameters and the return annotation stay within the tokens |
| Grammar.ReturnAnnotation | src/parser/Parser.ts:309-326 | without `::` the return type is `none` and nothing is consumed |
| Grammar.FunctionBody | src/parser/Parser.ts:328-347 | after `=>` the body is exactly one return statement |
| Grammar.BracedBlock | src/parser/Parser.ts:381-383 | a braced block consumes at least its two braces |
| Grammar.IfStatement | src/parser/Parser.ts:377-413 | the node holds the condition `parseExpression` reads after `if`, the braced block after it, the `else if` branches and the `else` that the `else` loop collects, and the line at `if` |
| Grammar.ElseChain | src/parser/Parser.ts:387-404 | the `else` loop stops only where no `else` is current, keeps the earlier `else if` branches, and returns what it was given when no `else` is current |
| Grammar.ElseStep | src/parser/Parser.ts:388-403 | an `else if` appends exactly one branch, with its condition, block and line, and keeps the `else`; a bare `else` keeps the branches and replaces the `else` by its own block |
| Grammar.LaterElseReplaces | src/parser/Parser.ts:398-402 | of two bare `else`s in a row, the later block is the statement's `else` and the earlier one is dropped |
| Grammar.WhileStatement | src/parser/Parser.ts:415-424 | the condition is read at the comparison level (`parseConditionalExpression`), then the braced block; the node holds both and the line at `while` |
| Grammar.WhileConditionStopsAtLogical | src/parser/Parser.ts:415-424 | a comparison after `while` that is followed by `&&` or `\|\|` makes the loop a SyntaxError at that operator's line |
| Grammar.Statement | src/parser/Parser.ts:426-456 | a statement consumes at least one token and stays within the tokens |
| Grammar.StatementLeadingToken | src/parser/Parser.ts:426-456 | no token left is a SyntaxError, and so is a token that starts no statement, at its line; otherwise `while`, `if`, `fn`, `rn` and `print` each give exactly their own kind of statement, and a name exactly a declaration, an assignment or a call statement |
| Grammar.NamedStatement | src/parser/Parser.ts:439-450 | the token after the name decides: `:` gives exactly a declaration, `=` exactly an assignment and `(` exactly a call statement of that name, which ends at its `)` with no `;` read; a name that is the last token is a SyntaxError |
| Grammar.Block | src/parser/Parser.ts:458-470 | the block loop stops exactly at the end of the tokens or at a `}`, and only appends |
| Grammar.Statements | src/parser/Parser.ts:458-470 | a block stays within the tokens |
| Parsing.Parser.constructor | src/parser/Parser.ts:43-48 | the cursor is on the first token, and the current line is that token's line |
| Parsing.Parser.Advance | src/parser/Parser.ts:50-53 | the cursor moves one token on, and the current line follows it unless the new token's line is 0 |
| Parsing.Parser.Expect | src/parser/Parser.ts:55-77 | consumes the token exactly when it has the kind; otherwise throws a SyntaxError at the current line and does not move |
| Parsing.Parser.ParseBinary | src/parser/Parser.ts:79-175 | the operator loop of each level builds the node and stops at the position `Grammar.Binary` gives |
| Parsing.Parser.ParseOperand | src/parser/Parser.ts:79-175 | as `Grammar.Operand` |
| Parsing.Parser.ParseFactor | src/parser/Parser.ts:177-222 | as `Grammar.Factor` |
| Parsing.Parser.ParseNamedFactor | src/parser/Parser.ts:178-186 | as `Grammar.NamedFactor` |
| Parsing.Parser.ParseParenthesised | src/parser/Parser.ts:208-214 | as `Grammar.Parenthesised` |
| Parsing.Parser.ParseFunctionCall | src/parser/Parser.ts:358-375 | as `Grammar.Call` |
| Parsing.Parser.ParseArgumentList | src/parser/Parser.ts:367-370 | the comma loop is `Grammar.Arguments` |
| Parsing.Parser.ParseVariableDeclaration | src/parser/Parser.ts:224-244 | as `Grammar.VariableDeclaration` |
| Parsing.Parser.ParseDeclaredValue | src/parser/Parser.ts:235-243 | as `Grammar.DeclaredValue` |
| Parsing.Parser.ParseAssignmentVariable | src/parser/Parser.ts:246-260 | as `Grammar.AssignmentStatement` |
| Parsing.Parser.ParsePrint | src/parser/Parser.ts:262-277 | the argument loop is `Grammar.PrintStatement` |
| Parsing.Parser.ParseFunctionParameter | src/parser/Parser.ts:279-291 | as `Grammar.Parameter` |
| Parsing.Parser.ParseReturn | src/parser/Parser.ts:293-300 | as `Grammar.ReturnStatement` |
| Parsing.Parser.ParseFunctionDefinition | src/parser/Parser.ts:302-356 | as `Grammar.FunctionDefinition` |
| Parsing.Parser.ParseSignature | src/parser/Parser.ts:309-326 | as `Grammar.Signature` |
| Parsing.Parser.ParseParameters | src/parser/Parser.ts:312-319 | the parameter loop is `Grammar.Parameters` |
| Parsing.Parser.ParseReturnAnnotation | src/parser/Parser.ts:321-326 | as `Grammar.ReturnAnnotation` |
| Parsing.Parser.ParseFunctionBody | src/parser/Parser.ts:328-347 | as `Grammar.FunctionBody` |
| Parsing.Parser.ParseBracedBlock | src/parser/Parser.ts:381-383 | as `Grammar.BracedBlock` |
| Parsing.Parser.ParseIfStatement | src/parser/Parser.ts:377-413 | as `Grammar.IfStatement` |
| Parsing.Parser.ParseElseBranches | src/parser/Parser.ts:387-404 | the `else` loop is `Grammar.ElseChain` |
| Parsing.Parser.ParseElseBranch | src/parser/Parser.ts:388-403 | as `Grammar.ElseStep` |
| Parsing.Parser.ParseWhileStatement | src/parser/Parser.ts:415-424 | as `Grammar.WhileStatement` |
| Parsing.Parser.ParseStatement | src/parser/Parser.ts:426-456 | as `Grammar.Statement` |
| Parsing.Parser.ParseNamedStatement | src/parser/Parser.ts:439-450 | as `Grammar.NamedStatement` |
| Parsing.Parser.ParseProgram | src/parser/Parser.ts:458-470 | the statement loop is `Grammar.Statements` |
| Parsing.Parser.Parse | src/parser/Parser.ts:472-474 | a fresh parser returns exactly `Grammar.Parse` of its tokens |
| Printing.Prec | src/parser/Parser.ts:79-175 | the binding strength of an expression is between 1 (logical) and 5 (factor) |
| Printing.OperatorKindParsesBack | src/parser/Parser.ts:82-175 | a binary node's operator token belongs to its own level's loop, ends every tighter level, and rebuilds the node |
| Printing.ExpressionRoundTrip | src/parser/Parser.ts:79-222 | `parseExpression` reads any expression it can build, printed with the fewest parentheses and followed by `;`, back to the same tree, and consumes exactly the printed tokens |
| Printing.ParsesBack | src/parser/Parser.ts:79-222 | each level's parser reads back an expression printed for that level and stops where the printed tokens end |
| Printing.FactorParsesBack | src/parser/Parser.ts:177-222 | `parseFactor` reads back a printed factor |
| Printing.OperatorSpine | src/parser/Parser.ts:82-96 | the operator loop folds a printed binary node of its own level to the left |
| Printing.CallParsesBack | src/parser/Parser.ts:358-375 | `parseFunctionCall` reads back a printed call from its `(` to its `)` |
| Printing.CommaArgumentsParseBack | src/parser/Parser.ts:367-370 | the comma loop reads back the printed arguments |
| Printing.NumberText | src/parser/Parser.ts:196 | the text of a natural is a decimal that `Number` reads back as the natural |
| Printing.EmptyCall | src/parser/Parser.ts:363-372 | `name()` parses to a call with no arguments and consumes both parentheses |
| Printing.TailStep | src/parser/Parser.ts:82-96 | one turn of an operator loop combines the fold so far with the next operand |
| Values.FalsyLiterals | src/interpreter/Interpreter.ts:98-136 | a condition fails exactly for `""`, `0` and `false`; a NoneNode counts as holding |
| Values.HostText | src/interpreter/Interpreter.ts:311 | a boolean turns into `true`/`false` and a string into itself when it fills a placeholder |
| Values.ArithmeticTyping | src/interpreter/Interpreter.ts:266-277 | two strings can only be added, giving their concatenation; any other pair that is not two numbers throws TypeError; a result has its operands' type |
| Values.DivisionIsExact | src/interpreter/Interpreter.ts:292-295 | a quotient is representable exactly when the divisor is not zero and divides the dividend, and then it times the divisor is the dividend |
| Values.TextOrderTotal | src/interpreter/Interpreter.ts:352-359 | the order `<` uses on two strings is irreflexive, total and asymmetric |
| Values.ComparisonDuality | src/interpreter/Interpreter.ts:347-362 | `!=` is the negation of `==`, `>=` of `<`, `<=` of `>`, `r > l` is `l < r`, and `==` compares the two values |
| Values.Negate | src/interpreter/Interpreter.ts:384-386 | a negation is a number, and is representable exactly when its operand is a number or boolean literal |
| Values.NegationIsSyntactic | src/interpreter/Interpreter.ts:384-386 | `-n` is the number's negation, while a nested negation or a negated identifier is not representable |
| Values.NameEnd | src/interpreter/Interpreter.ts:302 | the end of a run of name characters: every character before it is one and the one at it is not |
| Values.PlaceholderEnd | src/interpreter/Interpreter.ts:302 | a placeholder found at a position is a `{`, a name and a `}` |
| Values.Placeholders | src/interpreter/Interpreter.ts:302-303 | every match of the placeholder pattern is a name between braces |
| Values.PlaceholdersComplete | src/interpreter/Interpreter.ts:302-303 | the global match misses no placeholder: every `{name}` in the text is among the matches |
| Values.NoBraceNoPlaceholders | src/interpreter/Interpreter.ts:302-305 | a text without `{` has no placeholder |
| Values.SinglePlaceholder | src/interpreter/Interpreter.ts:302-303 | `{name}` matches as a whole, once |
| Values.FindFrom | src/interpreter/Interpreter.ts:311 | `replace` with a string pattern finds its first occurrence: nothing earlier matches, and `None` means no occurrence at all |
| Values.ExpandWithoutDollar | src/interpreter/Interpreter.ts:311 | a replacement text without `$` is inserted as it is |
| Values.ReplaceFirstSplits | src/interpreter/Interpreter.ts:311 | replacing puts the replacement text in place of the first occurrence and keeps both sides |
| Values.ReplaceAbsent | src/interpreter/Interpreter.ts:311 | replacing a pattern that does not occur changes nothing |
| Values.FillInNothing | src/interpreter/Interpreter.ts:305-313 | a text without placeholders comes out unchanged |
| Values.BuiltinShapes | src/builtins/index.ts:28 | each of `input`, `string` and `number` takes exactly one argument, returns `str` or `num`, and is not a name inherited from `Object.prototype` |
| Values.NumberOf | src/builtins/utils/number.ts:3-5 | `Number` of a text that it reads is a number that is not negative |
| Values.NumberOfText | src/builtins/utils/string.ts:3-5 | `Number(String(n))` is `n` |
| Variables.Holder | src/symbolTable/VariableTable.ts:41-55 | the innermost frame that binds a name, and no frame binds it when there is none |
| Variables.Pop | src/symbolTable/VariableTable.ts:23-27 | leaving a scope drops exactly one frame |
| Variables.LookupFindsInnermost | src/symbolTable/VariableTable.ts:41-55 | a name reads as its binding in the innermost frame that has it |
| Variables.LookupFails | src/symbolTable/VariableTable.ts:52-54 | reading throws ReferenceError exactly when no frame binds the name |
| Variables.DeclareBinds | src/symbolTable/VariableTable.ts:29-39 | a declaration throws exactly when the current frame already has the name; otherwise the name reads as the value, every other name as before, and the outer frames are kept |
| Variables.AssignUpdates | src/symbolTable/VariableTable.ts:57-79 | an assignment throws ReferenceError exactly when no frame binds the name and TypeError with the line exactly when the type changes; otherwise only the innermost binding changes |
| Variables.ScopeRestores | src/symbolTable/VariableTable.ts:16-39 | entering a scope, declaring in it and leaving again restores every frame and every lookup |
| Variables.VariableTable.constructor | src/symbolTable/VariableTable.ts:10-14 | a new table holds one empty global frame |
| Variables.VariableTable.EnterScope | src/symbolTable/VariableTable.ts:16-21 | an empty frame is pushed |
| Variables.VariableTable.ExitScope | src/symbolTable/VariableTable.ts:23-27 | the current frame is dropped |
| Variables.VariableTable.AddVariable | src/symbolTable/VariableTable.ts:29-39 | the frames become `Declare`'s, and a refused declaration changes nothing |
| Variables.VariableTable.GetVariableValue | src/symbolTable/VariableTable.ts:41-55 | the search from the innermost frame out returns `Lookup` |
| Variables.VariableTable.UpdateVariableValue | src/symbolTable/VariableTable.ts:57-79 | the frames become `Assign`'s, and a refused assignment changes nothing |
| Functions.MatchCharacterised | src/symbolTable/FunctionTable.ts:75-77 | an overload matches exactly when it has no more parameters than arguments and each parameter's annotation names its argument's type; the test throws exactly when the arguments run out while the types still agree |
| Functions.SelectEarliest | src/symbolTable/FunctionTable.ts:73-86 | the chosen overload is the earliest that matches, and each before it fails without throwing |
| Functions.CrashHidesLaterOverloads | src/symbolTable/FunctionTable.ts:75-77 | when the first overload's test throws, the call throws TypeError even if a later one would match |
| Functions.ResolveArity | src/symbolTable/FunctionTable.ts:73-86 | a resolved overload has no more parameters than the call has arguments |
| Functions.ResolveIgnoresOuter | src/symbolTable/FunctionTable.ts:66-72 | only the innermost frame that has the name is searched: outer frames do not matter |
| Functions.ResolveUnbound | src/symbolTable/FunctionTable.ts:88-90 | a name that no frame defines throws ReferenceError |
| Functions.SelectTypeError | src/symbolTable/FunctionTable.ts:82-84 | when the frame has the name but no overload is chosen, the error is TypeError |
| Functions.DefineAppends | src/symbolTable/FunctionTable.ts:29-60 | a definition throws SyntaxError exactly when the current frame holds a clashing overload; otherwise it is appended to that frame's overloads and nothing else changes |
| Functions.SeparateAnnotationsDoNotClash | src/symbolTable/FunctionTable.ts:40-56 | annotations are compared as objects, so two definitions whose annotations are written alike do not clash |
| Functions.FunctionTable.constructor | src/symbolTable/FunctionTable.ts:10-14 | a new table holds one empty global frame |
| Functions.FunctionTable.EnterScope | src/symbolTable/FunctionTable.ts:16-21 | an empty frame is pushed |
| Functions.FunctionTable.ExitScope | src/symbolTable/FunctionTable.ts:23-27 | the current frame is dropped |
| Functions.FunctionTable.AddFunction | src/symbolTable/FunctionTable.ts:29-60 | the frames become `Define`'s, and a refused definition changes nothing |
| Functions.FunctionTable.GetFunction | src/symbolTable/FunctionTable.ts:62-91 | the search from the innermost frame and the overload loop return `Resolve` |
| ScopePaths.Find | src/symbolTable/VariableTable.ts:18 | `Map.has`: the place of the entry with a key, and none means no entry has it |
| ScopePaths.Frames | src/symbolTable/VariableTable.ts:43-51 | the map's frames in insertion order, one per entry |
| ScopePaths.Scan | src/symbolTable/VariableTable.ts:43-51 | the scan from the last key finds an entry whose frame has the name |
| ScopePaths.CurrentIsLast | src/symbolTable/VariableTable.ts:16-27 | while scopes are entered and left in turn, the current path is the key of the last entry and of no other |
| ScopePaths.InitialIsGlobalFrame | src/symbolTable/VariableTable.ts:10-14 | the new map holds one empty frame under `global`, its current path |
| ScopePaths.EnterPushes | src/symbolTable/VariableTable.ts:16-21 | entering adds a new last entry, so the stack gains an empty frame and the chain holds |
| ScopePaths.DeleteLast | src/symbolTable/VariableTable.ts:23-27 | deleting the last entry's key, which no other entry has, removes just that entry |
| ScopePaths.ExitPops | src/symbolTable/VariableTable.ts:23-27 | leaving pops the stack, and the chain holds |
| ScopePaths.ScanIsHolder | src/symbolTable/VariableTable.ts:43-51 | the scan over the keys finds the same frame as the search of the stack |
| ScopePaths.Rewrite | src/symbolTable/VariableTable.ts:57-79 | writing back one entry's frame changes that one frame of the stack and keeps the chain |
| ScopePaths.AddVariableDeclares | src/symbolTable/VariableTable.ts:29-39 | adding to the map succeeds and fails as declaring in the stack does, with the same error and the same new frames |
| ScopePaths.GetVariableValueLooksUp | src/symbolTable/VariableTable.ts:41-55 | reading through the map is `Lookup` in the stack |
| ScopePaths.UpdateVariableValueAssigns | src/symbolTable/VariableTable.ts:57-79 | updating through the map succeeds and fails as assigning in the stack does, with the same error and the same new frames |
| ScopePaths.AddFunctionDefines | src/symbolTable/FunctionTable.ts:29-60 | adding a definition to the map is `Define` in the stack |
| ScopePaths.GetFunctionResolves | src/symbolTable/FunctionTable.ts:62-91 | resolving through the map is `Resolve` in the stack |
| Semantics.LookupNames | src/interpreter/Interpreter.ts:306-308 | the lookup succeeds exactly when every placeholder names a bound variable, and then gives each placeholder's value in order; otherwise it throws ReferenceError |
| Semantics.Eval | src/interpreter/Interpreter.ts:365-396 | an expression that evaluates leaves both tables with as many frames as it found, each binding the names it did |
| Semantics.EvalArgs | src/interpreter/Interpreter.ts:196-201 | arguments that evaluate give one value each and leave every frame binding the names it did |
| Semantics.EvalCall | src/interpreter/Interpreter.ts:191-255 | a call that returns leaves every frame of both tables binding the names it did: the frames pushed for a user function are popped again with what was declared in them |
| Semantics.CallOn | src/interpreter/Interpreter.ts:203-254 | a call on evaluated arguments that returns leaves every frame of both tables binding the names it did |
| Semantics.Invoke | src/interpreter/Interpreter.ts:229-254 | a user function's call that returns pops the frames it pushed, and the caller's frames bind the names they did |
| Semantics.BindParams | src/interpreter/Interpreter.ts:237-241 | binding the parameters touches nothing but the variable frames, and their number stays |
| Semantics.ExecBlock | src/interpreter/Interpreter.ts:49-54 | a block that runs without throwing keeps the number of frames, the names of every frame below the current one, and the current frame's names, to which declarations may add |
| Semantics.ScopedBlock | src/interpreter/Interpreter.ts:106-111 | the frames pushed for a branch or loop body are popped when the body does not throw, so every frame binds the names it did |
| Semantics.ExecStmt | src/interpreter/Interpreter.ts:56-78 | a statement that does not throw keeps the frames below the current one as they were named, and only adds names to the current one |
| Semantics.ExecIf | src/interpreter/Interpreter.ts:98-136 | an `if` that does not throw leaves every frame binding the names it did |
| Semantics.ElseIfs | src/interpreter/Interpreter.ts:113-124 | the `else if` loop leaves every frame binding the names it did when it does not throw |
| Semantics.Branch | src/interpreter/Interpreter.ts:114-123 | one `else if` leaves every frame binding the names it did when it does not throw |
| Semantics.ExecWhile | src/interpreter/Interpreter.ts:80-96 | a `while` that does not throw leaves every frame binding the names it did |
| Behaviour.BlockSuffix | src/interpreter/Interpreter.ts:49-54 | running a block from a position depends only on the statements from there on |
| Behaviour.BlockSequence | src/interpreter/Interpreter.ts:49-54 | a block of two parts runs the second part only when the first falls through, from the state the first left |
| Behaviour.BlockStopsAtValue | src/interpreter/Interpreter.ts:50-53 | a statement that yields a value or throws ends the block, and the statements after it never run |
| Behaviour.CallFreeKeepsState | src/interpreter/Interpreter.ts:365-396 | an expression that calls no function changes neither table, the output nor the input |
| Behaviour.CallFreeArgumentsKeepState | src/interpreter/Interpreter.ts:196-201 | arguments that call no function leave the state as it was |
| Behaviour.CallFreeConditionsKeepState | src/interpreter/Interpreter.ts:113-124 | `else if` conditions that call no function and all fail leave the state as it was |
| Behaviour.PrintWritesOneLine | src/interpreter/Interpreter.ts:169-179 | `print` evaluates every argument first and throws an argument's error before writing anything; otherwise it appends exactly one line holding the arguments' `value` fields and changes nothing else |
| Behaviour.LogicalEvaluatesBoth | src/interpreter/Interpreter.ts:318-336 | `&&` and `\|\|` evaluate the right operand whatever the left one is, and combine the two by truthiness |
| Behaviour.DeclarationChecksType | src/interpreter/Interpreter.ts:138-153 | a declaration throws TypeError with its line when the value's type is not the annotated one, succeeds exactly when the type agrees and the current frame lacks the name, and then binds the name to the value and nothing else |
| Behaviour.ElseIfsFirstTruthy | src/interpreter/Interpreter.ts:113-124 | the first `else if` whose condition holds runs, from the state the earlier conditions left, calls in them included, and its block's value is returned |
| Behaviour.ElseIfsNoneHolds | src/interpreter/Interpreter.ts:113-124 | when no `else if` condition holds, no block runs, and the state is the one the conditions left |
| Behaviour.IfFallsToElse | src/interpreter/Interpreter.ts:125-134 | when every condition fails, the `else` block runs in fresh frames, from the state the conditions left |
| Behaviour.WhileValueFromFirstIteration | src/interpreter/Interpreter.ts:80-96 | the only value a `while` yields is the one its first iteration's body yields |
| Behaviour.LaterReturnIsLost | src/interpreter/Interpreter.ts:92-95 | the recursive call's value is dropped: after a first iteration that falls through, the loop yields a NoneNode whatever later iterations return |
| Behaviour.BuiltinCallChecked | src/interpreter/Interpreter.ts:203-227 | a builtin call throws an Error with its line exactly when the argument count or type is wrong, returns the builtin's return type, and leaves both tables as the arguments left them |
| Behaviour.InheritedNameThrows | src/interpreter/Interpreter.ts:203-232 | calling a name inherited from `Object.prototype` such as `toString` throws TypeError |
| Behaviour.UserCallReturnsDeclaredType | src/interpreter/Interpreter.ts:229-254 | a successful user function call needed a unit of fuel and a resolved overload, and returns only a value of that overload's return type |
| Behaviour.UserCallInvokes | src/interpreter/Interpreter.ts:191-235 | a resolved user function, with fuel left, is invoked on the evaluated arguments, and has no more parameters than there are arguments |
| Behaviour.InvokeChecksReturnType | src/interpreter/Interpreter.ts:234-254 | once the parameters bind and the body ends, the value is returned exactly when its type is the declared return type, and TypeError with the definition's line is thrown otherwise; either way both pushed frames are popped and the caller's frames bind the names they did |
| Behaviour.NumberOfStringRoundTrip | src/interpreter/Interpreter.ts:203-227 | `number(string(n))` gives back `n` and changes nothing |
| Behaviour.PlainStringUnchanged | src/interpreter/Interpreter.ts:301-316 | a string literal without `{` evaluates to itself |
| Behaviour.InterpolateOne | src/interpreter/Interpreter.ts:301-316 | a string that is one placeholder reads the variable, throws if it is unbound, and otherwise replaces the placeholder by the value's text |
| Behaviour.ReplaceWhole | src/interpreter/Interpreter.ts:311 | replacing a whole text by a pattern is the pattern's expansion |
| Behaviour.PlaceholderReadsVariable | src/interpreter/Interpreter.ts:301-316 | `"{x}"` evaluates to the text of x's value when that text has no `$` |
| Behaviour.DollarPatternInValue | src/interpreter/Interpreter.ts:311 | a value whose text is `$&` is read as a replacement pattern, so `"{x}"` stays `"{x}"` |
| Behaviour.ExpandMatched | src/interpreter/Interpreter.ts:311 | `$&` expands to the matched text |
| Behaviour.PlaceholderUnbound | src/interpreter/Interpreter.ts:307 | a placeholder naming an unbound variable throws ReferenceError |
| Behaviour.InterpolateFails | src/interpreter/Interpreter.ts:301-316 | interpolation throws exactly when some placeholder of the string names an unbound variable, and it then throws ReferenceError |
| Behaviour.UnboundPlaceholderThrows | src/interpreter/Interpreter.ts:301-316 | a `{name}` anywhere in a string literal whose variable is unbound makes the literal throw ReferenceError, with the state unchanged |
| Behaviour.StoredStringReinterpolated | src/interpreter/Interpreter.ts:368-381 | a variable holding a string reads as that string interpolated again |
| Interpreting.Interpreter.constructor | src/interpreter/Interpreter.ts:44-47 | a new interpreter has one global frame in each table and has written nothing |
| Interpreting.Interpreter.Interpret | src/interpreter/Interpreter.ts:49-54 | the statement loop runs as `ExecBlock`: result, tables, output and input |
| Interpreting.Interpreter.ExecuteStatement | src/interpreter/Interpreter.ts:56-78 | runs as `ExecStmt` |
| Interpreting.Interpreter.ExecuteVariableDeclaration | src/interpreter/Interpreter.ts:138-153 | runs as `ExecStmt` on a declaration |
| Interpreting.Interpreter.ExecuteAssignment | src/interpreter/Interpreter.ts:155-167 | runs as `ExecStmt` on an assignment |
| Interpreting.Interpreter.ExecutePrint | src/interpreter/Interpreter.ts:169-179 | the argument loop and the written line run as `ExecStmt` on a `print` |
| Interpreting.Interpreter.ExecuteInScope | src/interpreter/Interpreter.ts:106-111 | enter, run and exit run as `ScopedBlock` |
| Interpreting.Interpreter.ExecuteIfElse | src/interpreter/Interpreter.ts:98-136 | the condition, the `else if` loop and the `else` run as `ExecIf` |
| Interpreting.Interpreter.ExecuteWhile | src/interpreter/Interpreter.ts:80-96 | runs as `ExecWhile` |
| Interpreting.Interpreter.EvaluateArguments | src/interpreter/Interpreter.ts:196-201 | the argument loop runs as `EvalArgs` |
| Interpreting.Interpreter.ExecuteFunctionCall | src/interpreter/Interpreter.ts:191-202 | the argument loop and then the call on the values run as `EvalCall` |
| Interpreting.Interpreter.ExecuteCallOn | src/interpreter/Interpreter.ts:203-254 | the builtin call, the inherited-name check, overload resolution and the user call run as `CallOn` |
| Interpreting.Interpreter.ExecuteBuiltin | src/interpreter/Interpreter.ts:203-227 | the count check and the type loop run as `CallBuiltin` |
| Interpreting.Interpreter.ExecuteUserFunction | src/interpreter/Interpreter.ts:229-254 | pushing frames, the binding loop, the body, popping and the return-type check run as `Invoke` |
| Interpreting.Interpreter.CallHost | src/builtins/utils/input.ts:4-15 | a builtin's function on its argument runs as `Host`: `input` writes the prompt and takes the next input line |
| Interpreting.Interpreter.Evaluate | src/interpreter/Interpreter.ts:365-396 | runs as `Eval` |
| Interpreting.Interpreter.EvaluateArithmetic | src/interpreter/Interpreter.ts:257-299 | runs as `Eval` on an arithmetic node |
| Interpreting.Interpreter.EvaluateConditional | src/interpreter/Interpreter.ts:338-363 | the boolean it returns, as a BooleanNode, is `Eval` of the comparison |
| Interpreting.Interpreter.EvaluateLogical | src/interpreter/Interpreter.ts:318-336 | the boolean it returns, as a BooleanNode, is `Eval` of the logical node |
| Interpreting.Interpreter.EvaluateString | src/interpreter/Interpreter.ts:301-316 | the lookup loop and the replacement loop return `Interpolate`, and change nothing |
| Interpreting.Interpreter.LookUpPlaceholders | src/interpreter/Interpreter.ts:306-308 | the lookup of each placeholder's variable, in order, returns `LookupNames` |
| Interpreting.Interpreter.FillPlaceholders | src/interpreter/Interpreter.ts:310-312 | the replacement loop returns the text `FillIn` gives for the values' texts |
| ProgramPrinting.ProgramRoundTrip | src/parser/Parser.ts:458-474 | `parse` reads any printable program, printed token by token, back to the same tree |
| ProgramPrinting.StmtParsesBack | src/parser/Parser.ts:426-456 | `parseStatement` reads a printed statement back and stops right after it, when no `else` follows |
| ProgramPrinting.BlockParsesBack | src/parser/Parser.ts:458-470 | the statement loop reads printed statements back, up to a `}` or the end of the tokens |
| ProgramPrinting.BracedParsesBack | src/parser/Parser.ts:381-383 | a printed block between braces is read back, and reading stops after the `}` |
| ProgramPrinting.DeclarationParsesBack | src/parser/Parser.ts:224-244 | a printed declaration is read back |
| ProgramPrinting.AssignmentParsesBack | src/parser/Parser.ts:246-260 | a printed assignment is read back |
| ProgramPrinting.PrintParsesBack | src/parser/Parser.ts:262-277 | a printed `print` is read back with all its arguments |
| ProgramPrinting.ReturnParsesBack | src/parser/Parser.ts:293-300 | a printed return statement is read back |
| ProgramPrinting.CallStatementParsesBack | src/parser/Parser.ts:444-449 | a printed call statement is read back and ends at its `)` |
| ProgramPrinting.DefinitionParsesBack | src/parser/Parser.ts:302-356 | a printed function definition is read back with its name, parameters, return type and body |
| ProgramPrinting.ParamsParseBack | src/parser/Parser.ts:312-319 | the parameter loop reads the printed parameters back |
| ProgramPrinting.ReturnTypeParsesBack | src/parser/Parser.ts:321-326 | a printed return annotation, or its absence for `none`, is read back |
| ProgramPrinting.IfParsesBack | src/parser/Parser.ts:377-413 | a printed `if` is read back with its condition, block, `else if` branches and `else` |
| ProgramPrinting.ElseParsesBack | src/parser/Parser.ts:387-404 | the `else` loop reads the printed `else if` branches back in order, then the `else` |
| ProgramPrinting.WhileParsesBack | src/parser/Parser.ts:415-424 | a printed `while` is read back with its condition and block |

## Left out

- The regular-expression split in the `Lexer` constructor (src/lexer/Lexer.ts:23) is not modelled: the lexer takes the chunk sequence that the split produces as its input, an empty sequence standing for the `null` that `match` returns when it finds nothing.
- Lexing.Lexer.constructor: requires a non-empty split. On an empty one the source throws a TypeError inside the constructor; a Dafny constructor cannot throw, so `LexSource` returns that error (`NoMatch`) before building the object.
- The lexer's shape patterns are modelled by what they accept when matched without anchors (a quote occurring twice, any digit, any letter or underscore), not by a general regular-expression engine.
- Numbers are JavaScript doubles in the source and unbounded integers here. A division whose quotient is not an integer and a number text that `Number` reads as `NaN` or as a fraction end in `Unrepresentable` rather than in a value. `-0` (from `-0` or `-false`) is identified with `0`; the two differ only in how `console.log` writes them.
- Doubles lose integer precision above 2^53 and overflow to `Infinity` above about 1.8e308; the model's integers do neither, so arithmetic on such large values gives the exact result where the source rounds.
- `Values.HostText`: writes a number as its plain decimal digits (`IntToString`). JavaScript's `String(n)` switches to exponent form (`1e+21`) from 1e21 on, so interpolated texts of such numbers differ.
- Factor: a NUMBER token whose text is not all digits ends in `Unrepresentable`. That covers texts `Number` reads as integers (`1.0`, `1.`, `1e3`) as well as fractions and `NaN` texts such as `x1`.
- `Values.TextLess`: compares strings character by character by code point. JavaScript compares UTF-16 code units, which orders the same way inside the Basic Multilingual Plane but not for characters outside it (a character above U+FFFF sorts before one in U+E000..U+FFFF in JavaScript, after it here).
- `Values.NumberOf`: represents `Number(text)` only for digit texts and the empty text; signs, spaces, fractions, exponents and hexadecimal forms are `Unrepresentable`.
- `Values.Compare`: comparisons between values of different types use JavaScript's loose coercion in the source; the model does not represent them and returns `Unrepresentable`.
- `Values.Negate`: the source negates the operand node's `value` field without evaluating it. Only number and boolean literal operands are represented; an identifier, a call, a string or a nested negation as operand is `Unrepresentable`.
- `input` reads from standard input through `readline`; the model takes the input lines as part of the state and ends in `Unrepresentable` when they run out. The terminal interface itself is not modelled.
- Execution is bounded by fuel: each user function call and each further `while` iteration takes one unit, and a run that needs more ends in `OutOfFuel`. A program that does not terminate, and the host's stack overflow on deep recursion, are therefore not distinguished from one that runs out of fuel.
- `console.log`'s formatting of printed values is not modelled: a `print` records the list of host values it passes.
- `async`/`await` are not modelled: every step runs to completion before the next one, as the source awaits each in turn.
- Error messages are not modelled: an error is its kind and, where the source reports one, its line.
- Type annotations are kept as their token text; a name that is none of `str`, `num`, `bool`, `none` simply never matches a value's type.
- The command-line entry point (src/index.ts), which reads the file and prints errors, is not modelled.
- `Grammar.NullAccess` stands for the host TypeError the parser raises when an identifier is the last token of an expression; its message is not modelled.
