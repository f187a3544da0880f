/**
 * The scanner object: a cursor over an in-memory stream with a line counter
 * and a position-in-line counter, the tokens and errors it has appended, and
 * the scanning loops that move the cursor. Each pass of the main loop does
 * what NextPass describes, and Read appends exactly the run Lex describes.
 */
module Lexing {
  import opened Wrappers
  import opened Tokens
  import opened ParsingErrors
  import opened Environment
  import opened LexerSpec

  /** Moving the first element of `rest` to the end of `done` keeps their concatenation. */
  lemma MoveFirst<T>(done: seq<T>, rest: seq<T>, done': seq<T>)
    requires rest != [] && done' == done + [rest[0]]
    ensures done' + rest[1..] == done + rest
  {
    assert rest == [rest[0]] + rest[1..];
  }

  class Lexer {
    const stream: string
    const environment: ParserEnvironment
    /** The one-character symbol table, consulted before the identifier alphabet. */
    const symbolTokens: map<char, TokenType>

    var position: int
    var line: int
    var linePosition: int
    var tokens: seq<Token>
    var errors: seq<ParsingError>

    /**
     * The cursor is inside the stream, and the position-in-line counter equals
     * it: the setter adds every change of the cursor to the counter and nothing
     * resets it on a newline.
     */
    ghost predicate Valid()
      reads this
    {
      0 <= position <= |stream| && linePosition == position && 0 <= line
    }

    constructor (stream: string, environment: ParserEnvironment)
      ensures this.stream == stream && this.environment == environment && symbolTokens == SymbolTokens
      ensures position == 0 && line == 0 && linePosition == 0
      ensures tokens == [] && errors == []
      ensures Valid()
    {
      this.stream := stream;
      this.environment := environment;
      symbolTokens := SymbolTokens;
      position := 0;
      line := 0;
      linePosition := 0;
      tokens := [];
      errors := [];
    }

    /** The cursor's setter: moving the cursor moves the position-in-line counter by the same amount. */
    method SetPosition(value: int)
      modifies this
      ensures position == value
      ensures linePosition - position == old(linePosition - position)
      ensures line == old(line) && tokens == old(tokens) && errors == old(errors)
    {
      linePosition := linePosition + value - position;
      position := value;
    }

    /** The character under the cursor, or '\0' when the cursor is not inside the stream. */
    function Peek(): (c: char)
      reads this
      ensures 0 <= position < |stream| ==> c == stream[position]
      ensures !(0 <= position < |stream|) ==> c == '\0'
    {
      if 0 <= position < |stream| then stream[position] else '\0'
    }

    /**
     * Builds a token of `kind` covering `length` characters from offset `at`
     * (the cursor when `at` is negative), then moves the cursor just past the
     * token's end offset. The requires clause is what the token constructor's
     * substring demands.
     */
    method GetToken(kind: TokenType, at: int := -1, length: int := 1) returns (token: Token)
      requires var p := if at < 0 then position else at; 0 <= p && (p < |stream| ==> 0 <= length && p + length <= |stream|)
      modifies this
      ensures var p := if at < 0 then old(position) else at;
        fresh(token) && token.Data() == MakeToken(kind, stream, p, p + length - 1)
      ensures position == token.endPosition + 1
      ensures linePosition - position == old(linePosition - position)
      ensures line == old(line) && tokens == old(tokens) && errors == old(errors)
    {
      var p := at;
      if p < 0 {
        p := position;
      }
      token := new Token(kind, stream, p, p + length - 1);
      SetPosition(token.endPosition + 1);
    }

    /**
     * One step of the scanner, as NextToken describes it: skips whitespace
     * (counting newlines), then returns EOF at the end of the stream, a symbol
     * token, or a maximal identifier run, leaving the cursor after it; on an
     * unexpected character it appends the L002 error and returns null.
     */
    method GetNextToken() returns (token: Token?)
      requires Valid()
      modifies this
      ensures Valid() && tokens == old(tokens)
      ensures var r := NextToken(symbolTokens, stream, old(position), old(line));
        r.Emit? ==>
          token != null && fresh(token) && token.Data() == r.token &&
          position == r.position && line == r.line && errors == old(errors)
      ensures var r := NextToken(symbolTokens, stream, old(position), old(line));
        r.Fail? ==>
          token == null && position == r.error.position && line == r.error.line && errors == old(errors) + [r.error]
    {
      ghost var step := NextToken(symbolTokens, stream, position, line);
      if position == |stream| {
        NextAtEnd(symbolTokens, stream, line);
        token := new Token(EOF, stream, position);
        return;
      }
      var nextSymbol := Peek();
      while IsWhitespace(nextSymbol)
        invariant Valid() && position < |stream| && nextSymbol == stream[position]
        invariant NextToken(symbolTokens, stream, position, line) == step
        invariant tokens == old(tokens) && errors == old(errors)
        decreases |stream| - position
      {
        NextAfterSpace(symbolTokens, stream, position, line);
        SetPosition(position + 1);
        if nextSymbol == '\n' {
          line := line + 1;
        }
        if position == |stream| {
          NextAtEnd(symbolTokens, stream, line);
          token := new Token(EOF, stream, position);
          return;
        }
        nextSymbol := Peek();
      }

      if nextSymbol in symbolTokens {
        NextAtSymbol(symbolTokens, stream, position, line);
        token := GetToken(symbolTokens[nextSymbol]);
        return;
      }

      if IsIdentChar(nextSymbol) {
        NextAtIdent(symbolTokens, stream, position, line);
        token := ReadIdentifier();
        return;
      }

      NextAtUnexpected(symbolTokens, stream, position, line);
      errors := errors + [ParsingError(position, line, linePosition, UnexpectedSymbol(nextSymbol))];
      token := null;
    }

    /**
     * The identifier loop of GetNextToken, from an identifier character at the
     * cursor: collects the maximal run of identifier characters, as IdentEnd
     * describes it, and returns an Identifier token for it with the cursor
     * just past it.
     */
    method ReadIdentifier() returns (token: Token)
      requires Valid() && position < |stream| && IsIdentChar(stream[position])
      modifies this
      ensures Valid() && line == old(line) && tokens == old(tokens) && errors == old(errors)
      ensures fresh(token) && position == IdentEnd(stream, old(position))
      ensures token.Data() == MakeToken(Identifier, stream, old(position), position - 1)
    {
      var nextSymbol := Peek();
      var startPosition := position;
      ghost var end := IdentEnd(stream, startPosition);
      IdentEndRun(stream, startPosition);
      var ident := "";
      while IsIdentChar(nextSymbol)
        invariant startPosition <= position <= end && position < |stream|
        invariant linePosition == position && nextSymbol == stream[position]
        invariant ident == stream[startPosition..position]
        invariant line == old(line) && tokens == old(tokens) && errors == old(errors)
        decreases |stream| - position
      {
        ident := ident + [nextSymbol];
        SetPosition(position + 1);
        if position == |stream| {
          break;
        }
        nextSymbol := Peek();
      }
      token := new Token(Identifier, stream, startPosition, position - 1);
    }

    /**
     * The string-literal loop from the cursor: finds the closing `endSymbol`
     * as StringEnd does, with a backslash toggling escape mode when
     * `escapeSymbols` holds. On success it returns the Text token of the
     * content and moves the cursor past the closing quote; at the end of the
     * stream it appends the L001 error and returns null.
     */
    method GetStringToken(escapeSymbols: bool, endSymbol: char) returns (token: Token?)
      requires Valid()
      modifies this
      ensures Valid() && line == old(line) && tokens == old(tokens)
      ensures var end := StringEnd(stream, old(position), escapeSymbols, endSymbol, false);
        end.Some? ==>
          token != null && fresh(token) && old(position) <= end.value < |stream| &&
          token.Data() == MakeToken(Text, stream, old(position), end.value - 1) &&
          position == end.value + 1 && errors == old(errors)
      ensures var end := StringEnd(stream, old(position), escapeSymbols, endSymbol, false);
        end.None? ==>
          token == null && position == old(position) &&
          errors == old(errors) + [ParsingError(|stream|, line, position, UnterminatedString)]
    {
      var endPosition := position;
      var escapeMode := false;
      while endPosition < |stream|
        invariant position <= endPosition <= |stream|
        invariant StringEnd(stream, endPosition, escapeSymbols, endSymbol, escapeMode) ==
                  StringEnd(stream, position, escapeSymbols, endSymbol, false)
        decreases |stream| - endPosition
      {
        if stream[endPosition] == endSymbol && !escapeMode {
          token := new Token(Text, stream, position, endPosition - 1);
          SetPosition(endPosition + 1);
          return;
        }
        if escapeSymbols && stream[endPosition] == '\\' {
          escapeMode := !escapeMode;
          endPosition := endPosition + 1;
          continue;
        }
        if escapeMode {
          escapeMode := false;
        }
        endPosition := endPosition + 1;
      }
      errors := errors + [ParsingError(endPosition, line, linePosition, UnterminatedString)];
      token := null;
    }

    /**
     * One pass of the main loop, as NextPass describes it: scans the next
     * token and, after a quote, the literal that follows it; reclassifies a
     * keyword and appends what the pass produced. `more` says whether the
     * loop goes on; `added` is the token objects the pass appended.
     */
    method ReadStep() returns (more: bool, ghost added: seq<Token>)
      requires Valid() && ValidTable(symbolTokens)
      modifies this
      ensures Valid() && tokens == old(tokens) + added
      ensures var r := NextPass(symbolTokens, stream, environment.keywords, old(position), old(line));
        r.Go? ==>
          more && DataOf(tokens) == old(DataOf(tokens)) + [r.token] &&
          position == r.position && line == r.line && errors == old(errors)
      ensures var r := NextPass(symbolTokens, stream, environment.keywords, old(position), old(line));
        r.Stop? ==>
          !more && DataOf(tokens) == old(DataOf(tokens)) + r.tokens && errors == old(errors) + r.errors
    {
      ghost var r := NextToken(symbolTokens, stream, position, line);
      QuoteStepAt(r);
      var token := GetNextToken();
      if token == null {
        return false, [];
      }
      if IsQuoteKind(token.kind) {
        more, added := ReadLiteral(token.kind != QuoteSingle, token.value[0]);
      } else {
        more := ReadPlain(token);
        added := [token];
      }
    }

    /**
     * The quote case of a pass: scans the literal after the quote and appends
     * its Text token, so the loop goes on; or records L001, and the loop stops.
     * `added` is the token objects it appended.
     */
    method ReadLiteral(escapeSymbols: bool, endSymbol: char) returns (more: bool, ghost added: seq<Token>)
      requires Valid()
      modifies this
      ensures Valid() && line == old(line) && tokens == old(tokens) + added
      ensures var end := StringEnd(stream, old(position), escapeSymbols, endSymbol, false);
        end.Some? ==>
          more && DataOf(tokens) == old(DataOf(tokens)) + [MakeToken(Text, stream, old(position), end.value - 1)] &&
          position == end.value + 1 && errors == old(errors)
      ensures var end := StringEnd(stream, old(position), escapeSymbols, endSymbol, false);
        end.None? ==>
          !more && DataOf(tokens) == old(DataOf(tokens)) &&
          errors == old(errors) + [ParsingError(|stream|, line, old(position), UnterminatedString)]
    {
      var text := GetStringToken(escapeSymbols, endSymbol);
      if text == null {
        return false, [];
      }
      AddToken(text);
      return true, [text];
    }

    /**
     * Any other case of a pass: an identifier that is a keyword becomes a
     * Keyword, the token is appended, and the loop goes on unless it is EOF.
     */
    method ReadPlain(token: Token) returns (more: bool)
      requires token !in tokens
      modifies this, token
      ensures tokens == old(tokens) + [token]
      ensures DataOf(tokens) == old(DataOf(tokens)) + [Kept(old(token.Data()), environment.keywords)]
      ensures more == (old(token.kind) != EOF)
      ensures position == old(position) && line == old(line) && linePosition == old(linePosition) && errors == old(errors)
    {
      ghost var before := DataOf(tokens);
      if token.kind == Identifier && environment.CheckKeyword(token.value) {
        token.kind := Keyword;
        assert DataOf(tokens) == before;
      }
      AddToken(token);
      more := token.kind != EOF;
    }

    /** What a quote found at the cursor tells the literal loop. */
    lemma QuoteStepAt(r: Step)
      requires Valid() && ValidTable(symbolTokens) && r == NextToken(symbolTokens, stream, position, line)
      ensures r.Emit? && IsQuoteKind(r.token.kind) ==> |r.token.value| == 1 && 1 <= r.position <= |stream|
    {
      if r.Emit? && IsQuoteKind(r.token.kind) {
        QuoteStep(symbolTokens, stream, position, line, r);
      }
    }

    /** Appends a token object to the list of tokens. */
    method AddToken(token: Token)
      modifies this
      ensures tokens == old(tokens) + [token] && DataOf(tokens) == old(DataOf(tokens)) + [token.Data()]
      ensures position == old(position) && line == old(line) && linePosition == old(linePosition) && errors == old(errors)
    {
      DataOfAppend(tokens, token);
      tokens := tokens + [token];
    }

    /**
     * Rescans the stream from offset 0 and appends, after whatever the object
     * already holds, exactly the tokens and errors of Lex: the old contents
     * stay as they were.
     */
    method Read()
      requires symbolTokens == SymbolTokens
      modifies this
      ensures Valid() && old(tokens) <= tokens
      ensures DataOf(tokens) == old(DataOf(tokens)) + Lex(stream, environment.keywords).tokens
      ensures errors == old(errors) + Lex(stream, environment.keywords).errors
    {
      SymbolTokensValid();
      SetPosition(0);
      line := 0;
      linePosition := 0;
      ghost var keywords := environment.keywords;
      ghost var run := Lex(stream, keywords);
      ghost var rest := run;
      var more := true;
      while more
        invariant Valid() && ValidTable(symbolTokens) && old(tokens) <= tokens
        invariant more ==> rest == LexFrom(symbolTokens, stream, keywords, position, line)
        invariant !more ==> rest == LexResult([], [])
        invariant DataOf(tokens) + rest.tokens == old(DataOf(tokens)) + run.tokens
        invariant errors + rest.errors == old(errors) + run.errors
        decreases more, |stream| - position
      {
        ghost var before := DataOf(tokens);
        ghost var pass := NextPass(symbolTokens, stream, keywords, position, line);
        ghost var added;
        more, added := ReadStep();
        if more {
          ghost var next := LexFrom(symbolTokens, stream, keywords, position, line);
          assert rest == LexResult([pass.token] + next.tokens, next.errors);
          MoveFirst(before, rest.tokens, DataOf(tokens));
          rest := next;
        } else {
          rest := LexResult([], []);
        }
      }
    }
  }
}
