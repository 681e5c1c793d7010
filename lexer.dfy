/** The lexer (src/lexer/Lexer.ts), taking as input the chunk sequence that the
    source's regular-expression split produces. Each chunk is classified by the
    keyword/operator table first and by its shape otherwise; newline chunks only
    advance the line counter. */
module Lexing {

  import opened Base
  import opened Tokens
  import opened Numerals

  /** What lexing can throw: a chunk that no class accepts, with the line it was on; or
      the host's TypeError when the split of the source finds nothing at all (`match`
      then returns `null`, whose `shift` the constructor calls). */
  datatype LexError = UnexpectedToken(text: string, line: nat) | NoMatch

  predicate IsQuote(c: char) { c == '"' || c == '\'' || c == '`' }
  predicate IsIdentifierStart(c: char) { 'a' <= c <= 'z' || 'A' <= c <= 'Z' || c == '_' }

  /** The string pattern matched without anchors: it finds a match exactly when some
      quote character occurs twice (the text between the first two occurrences of the
      same quote contains no such quote, so it always matches the lazy body). */
  predicate HasStringShape(s: string) {
    exists i, j :: 0 <= i < j < |s| && IsQuote(s[i]) && s[j] == s[i]
  }

  /** The number pattern matched without anchors: any single digit already matches. */
  predicate HasNumberShape(s: string) {
    exists i :: 0 <= i < |s| && IsDigit(s[i])
  }

  /** The identifier pattern matched without anchors: any letter or underscore matches. */
  predicate HasIdentifierShape(s: string) {
    exists i :: 0 <= i < |s| && IsIdentifierStart(s[i])
  }

  /** `getTokenTypeAndValue`: the kind of a chunk on the given line. */
  function Classify(chunk: string, line: nat): Result<TokenType, LexError> {
    match Lookup(chunk)
    case Some(k) => Ok(k)
    case None =>
      if HasStringShape(chunk) then Ok(String)
      else if HasNumberShape(chunk) then Ok(Number)
      else if HasIdentifierShape(chunk) then Ok(Identifier)
      else Err(UnexpectedToken(chunk, line))
  }

  /** A chunk found in the table always gets the table's kind (so keywords and operators
      never become identifiers); any other chunk gets a shape kind or the error, which
      names the chunk and its line, exactly when no shape matches. */
  lemma ClassifyTableFirst(chunk: string, line: nat)
    ensures IsKey(chunk) ==>
      Classify(chunk, line).Ok? && exists i :: 0 <= i < |Table| && Table[i] == (chunk, Classify(chunk, line).value)
    ensures !IsKey(chunk) && Classify(chunk, line).Ok? ==> ShapeKind(Classify(chunk, line).value)
    ensures Classify(chunk, line).Err? <==>
      !IsKey(chunk) && !HasStringShape(chunk) && !HasNumberShape(chunk) && !HasIdentifierShape(chunk)
    ensures Classify(chunk, line).Err? ==> Classify(chunk, line).error == UnexpectedToken(chunk, line)
  {
    LookupIsTable(chunk, if Lookup(chunk).Some? then Lookup(chunk).value else If);
  }

  /** The shape tests run in a fixed order: string, then number, then identifier. */
  lemma ShapeOrder(chunk: string, line: nat)
    requires !IsKey(chunk)
    ensures HasStringShape(chunk) ==> Classify(chunk, line) == Ok(String)
    ensures !HasStringShape(chunk) && HasNumberShape(chunk) ==> Classify(chunk, line) == Ok(Number)
    ensures (!HasStringShape(chunk) && !HasNumberShape(chunk) && HasIdentifierShape(chunk)) ==>
              Classify(chunk, line) == Ok(Identifier)
  {
    LookupIsTable(chunk, If);
  }

  /** Because the tests are unanchored, a name with a digit in it is a number. */
  lemma NameWithDigitIsNumber(line: nat)
    ensures Classify("x1", line) == Ok(Number)
  {
    LookupIsTable("x1", If);
    assert IsDigit("x1"[1]);
    assert !HasStringShape("x1");
  }

  /** A chunk is live while it is non-empty: an empty chunk reads as "no more input". */
  predicate NoEmptyChunk(chunks: seq<string>) {
    forall i :: 0 <= i < |chunks| ==> chunks[i] != ""
  }

  /** The chunks that survive as tokens: every chunk except the newlines. */
  function Survivors(chunks: seq<string>): seq<string> {
    if chunks == [] then []
    else (if chunks[0] == "\n" then [] else [chunks[0]]) + Survivors(chunks[1..])
  }

  /** How many newline chunks a chunk sequence holds. */
  function Newlines(chunks: seq<string>): nat {
    if chunks == [] then 0
    else (if chunks[0] == "\n" then 1 else 0) + Newlines(chunks[1..])
  }

  /** `getTokens` as a function: the tokens lexed from `chunks` when the counter is at
      `line`, or the first chunk that does not classify. */
  function Lex(chunks: seq<string>, line: nat): Result<seq<Token>, LexError>
    decreases |chunks|
  {
    if chunks == [] || chunks[0] == "" then Ok([])
    else if chunks[0] == "\n" then Lex(chunks[1..], line + 1)
    else match Classify(chunks[0], line)
      case Err(e) => Err(e)
      case Ok(k) => Prepend([Token(k, chunks[0], line)], Lex(chunks[1..], line))
  }

  /** `new Lexer(source).lex()` on the split of the source: an empty split throws, and
      otherwise the chunks are lexed from line 1. */
  function Tokenize(chunks: seq<string>): Result<seq<Token>, LexError>
  {
    if chunks == [] then Err(NoMatch) else Lex(chunks, 1)
  }

  /** A source whose split is empty cannot be lexed, not even as an empty program; any
      other source fails exactly when one of its non-newline chunks classifies as
      nothing, and otherwise yields one token per such chunk with its text. */
  lemma TokenizeOutcome(chunks: seq<string>)
    requires NoEmptyChunk(chunks)
    ensures Tokenize(chunks) == Err(NoMatch) <==> chunks == []
    ensures Tokenize(chunks).Err? <==>
      chunks == [] || exists i :: 0 <= i < |chunks| && chunks[i] != "\n" && Classify(chunks[i], 0).Err?
    ensures Tokenize(chunks).Ok? ==> |Tokenize(chunks).value| == |Survivors(chunks)|
  {
    if chunks != [] {
      LexFailure(chunks, 1);
      LexNeverNoMatch(chunks, 1);
      if Lex(chunks, 1).Ok? {
        LexOutput(chunks, 1);
      }
    }
  }

  /** The chunk loop only ever throws for a chunk it cannot classify. */
  lemma {:induction false} LexNeverNoMatch(chunks: seq<string>, line: nat)
    ensures Lex(chunks, line) != Err(NoMatch)
    decreases |chunks|
  {
    if chunks != [] && chunks[0] != "" {
      var line' := if chunks[0] == "\n" then line + 1 else line;
      LexNeverNoMatch(chunks[1..], line');
    }
  }

  /** Lexing the remaining chunks is lexing the chunk a shift puts under the cursor
      followed by what stays in the queue. */
  lemma LexAfterShift(rest: seq<string>, line: nat)
    ensures rest == [] ==> Lex([""] + [], line) == Lex(rest, line)
    ensures rest != [] ==> [rest[0]] + rest[1..] == rest
  {
  }

  /** On success the output is the non-newline chunks, in order and with their text
      unchanged; each token has its chunk's kind and the line the counter had reached,
      i.e. the starting line plus the newlines before it. */
  lemma {:induction false} LexOutput(chunks: seq<string>, line: nat)
    requires NoEmptyChunk(chunks) && Lex(chunks, line).Ok?
    ensures |Lex(chunks, line).value| == |Survivors(chunks)|
    ensures forall i :: 0 <= i < |chunks| && chunks[i] != "\n" ==>
      var ts, k := Lex(chunks, line).value, |Survivors(chunks[..i])|;
      && k < |ts|
      && ts[k].value == chunks[i]
      && ts[k].line == line + Newlines(chunks[..i])
      && Classify(chunks[i], ts[k].line) == Ok(ts[k].kind)
  {
    if chunks != [] {
      var rest := chunks[1..];
      assert NoEmptyChunk(rest) by {
        forall i | 0 <= i < |rest| ensures rest[i] != "" { assert rest[i] == chunks[i + 1]; }
      }
      var line' := if chunks[0] == "\n" then line + 1 else line;
      assert Lex(rest, line').Ok?;
      LexOutput(rest, line');
      var ts := Lex(chunks, line).value;
      var tr := Lex(rest, line').value;
      forall i | 0 <= i < |chunks| && chunks[i] != "\n"
        ensures var k := |Survivors(chunks[..i])|;
          && k < |ts| && ts[k].value == chunks[i]
          && ts[k].line == line + Newlines(chunks[..i])
          && Classify(chunks[i], ts[k].line) == Ok(ts[k].kind)
      {
        if i == 0 {
          assert chunks[..0] == [];
        } else {
          assert chunks[..i][1..] == rest[..i - 1];
          assert chunks[i] == rest[i - 1];
        }
      }
    }
  }

  /** Whether a chunk is rejected does not depend on the line it is on. */
  lemma RejectionIgnoresLine(chunk: string, line: nat)
    ensures Classify(chunk, line).Err? <==> Classify(chunk, 0).Err?
  {
  }

  /** Lexing fails exactly when some non-newline chunk (before any empty one) matches no
      class. */
  lemma {:induction false} LexFailure(chunks: seq<string>, line: nat)
    requires NoEmptyChunk(chunks)
    ensures Lex(chunks, line).Err? <==>
      exists i :: 0 <= i < |chunks| && chunks[i] != "\n" && Classify(chunks[i], 0).Err?
  {
    if chunks != [] {
      var rest := chunks[1..];
      RestHasNoEmptyChunk(chunks);
      var line' := if chunks[0] == "\n" then line + 1 else line;
      LexFailure(rest, line');
      RejectionIgnoresLine(chunks[0], line);
      if exists i :: 0 <= i < |rest| && rest[i] != "\n" && Classify(rest[i], 0).Err? {
        var i :| 0 <= i < |rest| && rest[i] != "\n" && Classify(rest[i], 0).Err?;
        assert chunks[i + 1] == rest[i];
      }
      if exists i :: 0 <= i < |chunks| && chunks[i] != "\n" && Classify(chunks[i], 0).Err? {
        var i :| 0 <= i < |chunks| && chunks[i] != "\n" && Classify(chunks[i], 0).Err?;
        if i > 0 { assert rest[i - 1] == chunks[i]; }
      }
    }
  }

  lemma RestHasNoEmptyChunk(chunks: seq<string>)
    requires chunks != [] && NoEmptyChunk(chunks)
    ensures NoEmptyChunk(chunks[1..])
  {
    var rest := chunks[1..];
    forall i | 0 <= i < |rest| ensures rest[i] != "" { assert rest[i] == chunks[i + 1]; }
  }

  /** Chunk `i` is the first one that does not classify, it is not a newline, and `err`
      names it with its line: `line` plus the newlines before it. */
  predicate FirstRejected(chunks: seq<string>, line: nat, err: LexError, i: nat)
  {
    && i < |chunks| && chunks[i] != "\n"
    && err == UnexpectedToken(chunks[i], line + Newlines(chunks[..i]))
    && forall j :: 0 <= j < i && chunks[j] != "\n" ==> Classify(chunks[j], 0).Ok?
  }

  /** A first chunk that is a newline or classifies moves the first rejection one on. */
  lemma ShiftRejected(chunks: seq<string>, line: nat, err: LexError, i: nat)
    requires chunks != [] && (chunks[0] == "\n" || Classify(chunks[0], 0).Ok?)
    requires FirstRejected(chunks[1..], if chunks[0] == "\n" then line + 1 else line, err, i)
    ensures FirstRejected(chunks, line, err, i + 1)
  {
    var rest := chunks[1..];
    assert chunks[..i + 1][1..] == rest[..i];
    assert chunks[i + 1] == rest[i];
    forall j | 0 <= j < i + 1 && chunks[j] != "\n" ensures Classify(chunks[j], 0).Ok? {
      if j > 0 { assert chunks[j] == rest[j - 1]; }
    }
  }

  /** A failing lexer's error names the first rejected chunk and the line it is on. */
  lemma {:induction false} LexFailureIsFirst(chunks: seq<string>, line: nat)
    requires NoEmptyChunk(chunks) && Lex(chunks, line).Err?
    ensures exists i :: FirstRejected(chunks, line, Lex(chunks, line).error, i)
  {
    var rest := chunks[1..];
    RestHasNoEmptyChunk(chunks);
    var line' := if chunks[0] == "\n" then line + 1 else line;
    if chunks[0] != "\n" && Classify(chunks[0], line).Err? {
      assert chunks[..0] == [];
      assert FirstRejected(chunks, line, Lex(chunks, line).error, 0);
    } else {
      RejectionIgnoresLine(chunks[0], line);
      assert Lex(chunks, line).error == Lex(rest, line').error;
      LexFailureIsFirst(rest, line');
      var i :| FirstRejected(rest, line', Lex(rest, line').error, i);
      ShiftRejected(chunks, line, Lex(chunks, line).error, i);
    }
  }

  /** Every token the lexer emits has a positive line, is not a newline, and a type
      annotation token always carries one of the four type names. */
  lemma {:induction false} LexedTokensWellFormed(chunks: seq<string>, line: nat)
    requires line >= 1 && Lex(chunks, line).Ok?
    ensures forall t :: t in Lex(chunks, line).value ==>
      t.line >= 1 && t.kind != NewLine && (t.kind == TypeAnnotation ==> IsTypeName(t.value))
  {
    if chunks != [] && chunks[0] != "" {
      var line' := if chunks[0] == "\n" then line + 1 else line;
      LexedTokensWellFormed(chunks[1..], line');
      if chunks[0] != "\n" {
        AnnotationAndBooleanTexts(chunks[0]);
        TableNeverGivesShapeKinds(chunks[0]);
      }
    }
  }

  /** A newline chunk advances the counter by exactly one and emits nothing. */
  lemma NewlineChunk(rest: seq<string>, line: nat)
    ensures Lex(["\n"] + rest, line) == Lex(rest, line + 1)
  {
    assert (["\n"] + rest)[1..] == rest;
  }

  /** The first token of a text that does not start with a newline is on line 1. */
  lemma FirstTokenOnLineOne(chunks: seq<string>)
    requires NoEmptyChunk(chunks) && |chunks| > 0 && chunks[0] != "\n"
    requires Lex(chunks, 1).Ok?
    ensures |Lex(chunks, 1).value| > 0 && Lex(chunks, 1).value[0].line == 1
  {
    LexOutput(chunks, 1);
    assert chunks[..0] == [];
  }

  /** The lexer object: the chunks still to read, the chunk under the cursor and the line
      counter. An empty `currentToken` stands for the code's `null` (no chunk left). */
  class Lexer {
    var src: seq<string>
    var currentToken: string
    var currentLine: nat

    /** Takes the split of the trimmed source and shifts its first chunk. An empty split
        makes the source throw here; `Tokenize` below models that case. */
    constructor (chunks: seq<string>)
      requires chunks != []
      ensures currentToken == chunks[0] && src == chunks[1..]
      ensures currentLine == 1
    {
      src, currentToken := chunks[1..], chunks[0];
      currentLine := 1;
    }

    /** `src.shift() || null`. */
    method Shift()
      modifies this
      ensures currentToken == (if old(src) == [] then "" else old(src)[0])
      ensures src == (if old(src) == [] then [] else old(src)[1..])
      ensures currentLine == old(currentLine)
    {
      if src == [] {
        currentToken := "";
      } else {
        currentToken, src := src[0], src[1..];
      }
    }

    /** `getTokens`: the loop over the chunks, counting lines and pushing tokens. */
    method GetTokens() returns (r: Result<seq<Token>, LexError>)
      modifies this
      ensures r == Lex([old(currentToken)] + old(src), old(currentLine))
    {
      var tokens: seq<Token> := [];
      ghost var goal := Lex([currentToken] + src, currentLine);
      PrependNothing(goal);
      while currentToken != ""
        invariant goal == Prepend(tokens, Lex([currentToken] + src, currentLine))
        decreases |src| + (if currentToken == "" then 0 else 1)
      {
        var tokenValue := currentToken;
        ghost var rest := src;
        assert ([tokenValue] + rest)[1..] == rest;
        LexAfterShift(rest, currentLine + 1);
        LexAfterShift(rest, currentLine);
        if tokenValue == "\n" {
          currentLine := currentLine + 1;
          Shift();
          continue;
        }
        var c := Classify(tokenValue, currentLine);
        if c.Err? {
          assert Lex([tokenValue] + rest, currentLine) == Err(c.error);
          assert goal == Err(c.error);
          return Err(c.error);
        }
        var t := Token(c.value, tokenValue, currentLine);
        Shift();
        PrependTwice(tokens, [t], Lex([currentToken] + src, currentLine));
        tokens := tokens + [t];
      }
      assert Lex([currentToken] + src, currentLine) == Ok([]);
      assert tokens + [] == tokens;
      assert goal == Ok(tokens);
      r := Ok(tokens);
    }

  }

  /** Builds the lexer on the split of the source and runs `lex`, throwing when the
      split is empty. */
  method LexSource(chunks: seq<string>) returns (r: Result<seq<Token>, LexError>)
    ensures r == Tokenize(chunks)
  {
    if chunks == [] {
      return Err(NoMatch);
    }
    var lexer := new Lexer(chunks);
    assert [chunks[0]] + chunks[1..] == chunks;
    r := lexer.GetTokens();
  }
}
