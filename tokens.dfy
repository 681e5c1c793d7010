/** Token kinds, the token record and the fixed classification table of the lexer
    (src/lexer/Token.ts). */
module Tokens {

  import opened Base

  /** The closed set of token kinds (the `TokenType` enum). */
  datatype TokenType =
    | String | Number | Boolean
    | Identifier | Assignment
    | OpenParen | CloseParen | OpenBrace | CloseBrace
    | If | Else | Return | While
    | Comma | Semicolon | Colon | TypeAnnotation | DoubleColon | Arrow | NewLine
    | Function | Print
    | Plus | Minus | Divide | Multiply
    | Equal | NotEqual | GreaterThan | LessThan | GreaterThanOrEqual | LessThanOrEqual
    | And | Or

  /** A token is exactly a kind, the source text it was made from and a line. */
  datatype Token = Token(kind: TokenType, value: string, line: nat)

  /** The keyword/operator table, entry by entry and in the order the source lists them. */
  const Table: seq<(string, TokenType)> := [
    ("if", If), ("else", Else), ("fn", Function), ("rn", Return),
    ("=", Assignment), (";", Semicolon), (":", Colon),
    ("{", OpenBrace), ("}", CloseBrace), ("(", OpenParen), (")", CloseParen),
    (",", Comma), ("+", Plus), ("-", Minus), ("*", Multiply), ("/", Divide),
    ("print", Print), ("=>", Arrow), ("&&", And), ("||", Or),
    ("==", Equal), ("!=", NotEqual), (">=", GreaterThanOrEqual), ("<=", LessThanOrEqual),
    (">", GreaterThan), ("<", LessThan), ("::", DoubleColon),
    ("str", TypeAnnotation), ("num", TypeAnnotation), ("none", TypeAnnotation), ("bool", TypeAnnotation),
    ("true", Boolean), ("false", Boolean), ("while", While)
  ]

  predicate IsKey(s: string) {
    exists i :: 0 <= i < |Table| && Table[i].0 == s
  }

  /** `token.get(s)`: the Map built from the entries of `Table`. */
  function Lookup(s: string): Option<TokenType> {
    match s
    case "if" => Some(If)
    case "else" => Some(Else)
    case "fn" => Some(Function)
    case "rn" => Some(Return)
    case "=" => Some(Assignment)
    case ";" => Some(Semicolon)
    case ":" => Some(Colon)
    case "{" => Some(OpenBrace)
    case "}" => Some(CloseBrace)
    case "(" => Some(OpenParen)
    case ")" => Some(CloseParen)
    case "," => Some(Comma)
    case "+" => Some(Plus)
    case "-" => Some(Minus)
    case "*" => Some(Multiply)
    case "/" => Some(Divide)
    case "print" => Some(Print)
    case "=>" => Some(Arrow)
    case "&&" => Some(And)
    case "||" => Some(Or)
    case "==" => Some(Equal)
    case "!=" => Some(NotEqual)
    case ">=" => Some(GreaterThanOrEqual)
    case "<=" => Some(LessThanOrEqual)
    case ">" => Some(GreaterThan)
    case "<" => Some(LessThan)
    case "::" => Some(DoubleColon)
    case "str" => Some(TypeAnnotation)
    case "num" => Some(TypeAnnotation)
    case "none" => Some(TypeAnnotation)
    case "bool" => Some(TypeAnnotation)
    case "true" => Some(Boolean)
    case "false" => Some(Boolean)
    case "while" => Some(While)
    case _ => None
  }

  /** The index of a key's entry in `Table`, or -1 for text that is not a key. */
  function Position(s: string): int {
    match s
    case "if" => 0
    case "else" => 1
    case "fn" => 2
    case "rn" => 3
    case "=" => 4
    case ";" => 5
    case ":" => 6
    case "{" => 7
    case "}" => 8
    case "(" => 9
    case ")" => 10
    case "," => 11
    case "+" => 12
    case "-" => 13
    case "*" => 14
    case "/" => 15
    case "print" => 16
    case "=>" => 17
    case "&&" => 18
    case "||" => 19
    case "==" => 20
    case "!=" => 21
    case ">=" => 22
    case "<=" => 23
    case ">" => 24
    case "<" => 25
    case "::" => 26
    case "str" => 27
    case "num" => 28
    case "none" => 29
    case "bool" => 30
    case "true" => 31
    case "false" => 32
    case "while" => 33
    case _ => -1
  }

  /** Each entry sits at the position its key names. */
  lemma PositionsOfEntries()
    ensures forall i :: 0 <= i < |Table| ==> Position(Table[i].0) == i
  {
  }

  /** No two entries share a key, so the table is a function from text to kind. */
  lemma KeysDistinct()
    ensures forall i, j :: 0 <= i < j < |Table| ==> Table[i].0 != Table[j].0
  {
    PositionsOfEntries();
  }

  /** `Lookup` returns exactly the kind paired with the text in the table, and nothing
      for text that is not a key. */
  lemma LookupIsTable(s: string, k: TokenType)
    ensures Lookup(s) == Some(k) <==> (exists i :: 0 <= i < |Table| && Table[i] == (s, k))
    ensures Lookup(s).None? <==> !IsKey(s)
  {
    KeysDistinct();
    EntriesAreFound();
    if !IsKey(s) {
      NotAKey(s);
    }
  }

  /** Every entry's text is found, with the entry's kind. */
  lemma EntriesAreFound()
    ensures forall i :: 0 <= i < |Table| ==> Lookup(Table[i].0) == Some(Table[i].1)
  {
  }

  /** Text that is no entry's key is not found. */
  lemma NotAKey(s: string)
    requires !IsKey(s)
    ensures Lookup(s) == None
  {
    NotAKeyPart1(s);
    NotAKeyPart2(s);
    NotAKeyPart3(s);
  }

  lemma NotAKeyPart1(s: string)
    requires !IsKey(s)
    ensures s != "if"
    ensures s != "else"
    ensures s != "fn"
    ensures s != "rn"
    ensures s != "="
    ensures s != ";"
    ensures s != ":"
    ensures s != "{"
    ensures s != "}"
    ensures s != "("
    ensures s != ")"
    ensures s != ","
  {
    assert Table[0].0 == "if";
    assert Table[1].0 == "else";
    assert Table[2].0 == "fn";
    assert Table[3].0 == "rn";
    assert Table[4].0 == "=";
    assert Table[5].0 == ";";
    assert Table[6].0 == ":";
    assert Table[7].0 == "{";
    assert Table[8].0 == "}";
    assert Table[9].0 == "(";
    assert Table[10].0 == ")";
    assert Table[11].0 == ",";
  }

  lemma NotAKeyPart2(s: string)
    requires !IsKey(s)
    ensures s != "+"
    ensures s != "-"
    ensures s != "*"
    ensures s != "/"
    ensures s != "print"
    ensures s != "=>"
    ensures s != "&&"
    ensures s != "||"
    ensures s != "=="
    ensures s != "!="
    ensures s != ">="
  {
    assert Table[12].0 == "+";
    assert Table[13].0 == "-";
    assert Table[14].0 == "*";
    assert Table[15].0 == "/";
    assert Table[16].0 == "print";
    assert Table[17].0 == "=>";
    assert Table[18].0 == "&&";
    assert Table[19].0 == "||";
    assert Table[20].0 == "==";
    assert Table[21].0 == "!=";
    assert Table[22].0 == ">=";
  }

  lemma NotAKeyPart3(s: string)
    requires !IsKey(s)
    ensures s != "<="
    ensures s != ">"
    ensures s != "<"
    ensures s != "::"
    ensures s != "str"
    ensures s != "num"
    ensures s != "none"
    ensures s != "bool"
    ensures s != "true"
    ensures s != "false"
    ensures s != "while"
  {
    assert Table[23].0 == "<=";
    assert Table[24].0 == ">";
    assert Table[25].0 == "<";
    assert Table[26].0 == "::";
    assert Table[27].0 == "str";
    assert Table[28].0 == "num";
    assert Table[29].0 == "none";
    assert Table[30].0 == "bool";
    assert Table[31].0 == "true";
    assert Table[32].0 == "false";
    assert Table[33].0 == "while";
  }

  /** The texts the table marks as type annotations. */
  predicate IsTypeName(s: string) {
    s == "str" || s == "num" || s == "none" || s == "bool"
  }

  /** `str`, `num`, `none` and `bool` are exactly the texts classified as type annotations;
      `true` and `false` are exactly the booleans. */
  lemma AnnotationAndBooleanTexts(s: string)
    ensures Lookup(s) == Some(TypeAnnotation) <==> IsTypeName(s)
    ensures Lookup(s) == Some(Boolean) <==> s == "true" || s == "false"
  {
  }

  /** The kinds that only shape tests or newline handling produce. */
  predicate ShapeKind(k: TokenType) {
    k == Identifier || k == String || k == Number || k == NewLine
  }

  lemma NoEntryIsShapeKind()
    ensures forall i :: 0 <= i < |Table| ==> !ShapeKind(Table[i].1)
  {
  }

  /** The kinds that only shapes or newline handling produce never come out of the table. */
  lemma TableNeverGivesShapeKinds(s: string)
    ensures Lookup(s).Some? ==> !ShapeKind(Lookup(s).value)
  {
    NoEntryIsShapeKind();
  }
}
